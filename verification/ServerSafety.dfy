/**
 What every step of the server keeps. The history gives each decoded request of connection `k` its index in
 `decoded[k]`; `loc` says where that request has got to, `own` says what each message is carrying, and
 `answered[k]` lists the responses written, each with the index of the request it answers.
 */
module ServerSafety {
  import opened Wrappers
  import opened Bytes
  import opened Encoding
  import opened ServerSteps

  datatype Place = Pooled | Lost | AtReader(k: nat, i: nat) | AtWorker(w: nat, k: nat, i: nat) | InQueue(k: nat, i: nat)

  datatype Loc = Cell(m: MsgRef) | InHand | Answered | Dropped

  datatype Reply = Reply(i: nat, rsp: Packet)

  datatype Hist = Hist(own: seq<Place>, loc: map<(nat, nat), Loc>, decoded: seq<seq<Packet>>, inHand: seq<nat>,
                       answered: seq<seq<Reply>>, log: set<(Packet, Packet)>)

  /** `m` carries request `i` of connection `k`, and nothing else does. */
  ghost predicate Carries(h: Hist, m: MsgRef, place: Place, k: nat, i: nat) {
    && m < |h.own| && h.own[m] == place
    && k < |h.decoded| && i < |h.decoded[k]|
    && (k, i) in h.loc && h.loc[(k, i)] == Cell(m)
  }

  ghost predicate CellOk(s: Server, h: Hist, m: MsgRef)
    requires m < |s.heap| && |h.own| == |s.heap|
  {
    var cell := s.heap[m];
    match h.own[m]
    case Pooled => cell == ServerMessage(None, None, None)
    case Lost => true
    case AtReader(k, i) =>
      Carries(h, m, AtReader(k, i), k, i) && cell == ServerMessage(Some(h.decoded[k][i]), None, Some(k))
    case AtWorker(w, k, i) => Carries(h, m, AtWorker(w, k, i), k, i)
    case InQueue(k, i) =>
      && Carries(h, m, InQueue(k, i), k, i)
      && cell.request.None? && cell.clientAddr.None? && cell.response.Some?
      && (h.decoded[k][i], cell.response.value) in h.log
  }

  ghost predicate WorkerOk(s: Server, h: Hist, w: nat)
    requires w < |s.workers| && |h.own| == |s.heap|
  {
    var worker := s.workers[w];
    && worker.k < |s.conns| && worker.m < |s.heap|
    && (worker.stage.Begun? || worker.stage.Running? || worker.stage.Replying? ==>
          && h.own[worker.m].AtWorker? && h.own[worker.m].w == w && h.own[worker.m].k == worker.k
          && var i := h.own[worker.m].i;
          && Carries(h, worker.m, AtWorker(w, worker.k, i), worker.k, i)
          && var req, cell := h.decoded[worker.k][i], s.heap[worker.m];
          && (worker.stage.Begun? ==> cell == ServerMessage(Some(req), None, Some(worker.k)))
          && (worker.stage.Running? ==> worker.stage == Running(Some(req), Some(worker.k)) && cell == ServerMessage(None, None, None))
          && (worker.stage.Replying? ==>
                cell.request.None? && cell.clientAddr.None? && cell.response.Some? && (req, cell.response.value) in h.log))
  }

  ghost predicate ConnOk(s: Server, h: Hist, k: nat)
    requires k < |s.conns| && |h.own| == |s.heap| && Sized(s, h)
  {
    var conn := s.conns[k];
    && (conn.reader.Holding? ==> conn.reader.m < |s.heap| && h.own[conn.reader.m].AtReader? && h.own[conn.reader.m].k == k)
    && |conn.responses| <= s.pendingResponses
    && (forall j :: 0 <= j < |conn.responses| ==>
          conn.responses[j] < |h.own| && h.own[conn.responses[j]].InQueue? && h.own[conn.responses[j]].k == k)
    && (forall j, j' :: 0 <= j < j' < |conn.responses| ==> conn.responses[j] != conn.responses[j'])
    && (conn.writer.Sending? ==>
          && conn.writer.rsp.Some?
          && h.inHand[k] < |h.decoded[k]| && (k, h.inHand[k]) in h.loc && h.loc[(k, h.inHand[k])] == InHand
          && (h.decoded[k][h.inHand[k]], conn.writer.rsp.value) in h.log)
    && AnswersOk(h, k)
  }

  /** Every response written answers a different request of its own connection, with a result of dispatching that request. */
  ghost predicate AnswersOk(h: Hist, k: nat)
    requires k < |h.answered| && k < |h.decoded|
  {
    var answers := h.answered[k];
    && (forall j :: 0 <= j < |answers| ==>
          && answers[j].i < |h.decoded[k]| && (k, answers[j].i) in h.loc && h.loc[(k, answers[j].i)] == Answered
          && (h.decoded[k][answers[j].i], answers[j].rsp) in h.log)
    && (forall j, j' :: 0 <= j < j' < |answers| ==> answers[j].i != answers[j'].i)
  }

  ghost predicate Sized(s: Server, h: Hist) {
    |h.decoded| == |h.inHand| == |h.answered| == |s.conns|
  }

  ghost predicate LogOk(s: Server, h: Hist) {
    forall e :: e in h.log ==> Dispatched(s, e.0, e.1)
  }

  ghost predicate Dispatched(s: Server, req: Packet, rsp: Packet) {
    exists code, body :: rsp == Dispatch(s.codec, s.handlers, req, code, body)
  }

  ghost predicate PoolOk(s: Server, h: Hist) {
    forall m :: m in s.pool ==> m < |h.own| && h.own[m].Pooled? && s.pool[m] == 1
  }

  function InFlight(workers: seq<Worker>): nat {
    if workers == [] then 0
    else InFlight(workers[..|workers| - 1]) + if workers[|workers| - 1].stage.Gone? then 0 else 1
  }

  ghost predicate TokensOk(s: Server) {
    s.tokens == InFlight(s.workers) && s.tokens <= s.concurrency
  }

  ghost predicate Cells(s: Server, h: Hist) {
    |h.own| == |s.heap| && forall m :: 0 <= m < |s.heap| ==> CellOk(s, h, m)
  }

  ghost predicate Workers(s: Server, h: Hist) {
    |h.own| == |s.heap| && forall w :: 0 <= w < |s.workers| ==> WorkerOk(s, h, w)
  }

  ghost predicate Conns(s: Server, h: Hist) {
    |h.own| == |s.heap| && Sized(s, h) && forall k :: 0 <= k < |s.conns| ==> ConnOk(s, h, k)
  }

  /** Only what is decoded has a location. */
  ghost predicate LocsOk(h: Hist) {
    forall k, i :: (k, i) in h.loc ==> k < |h.decoded| && i < |h.decoded[k]|
  }

  ghost predicate Inv(s: Server, h: Hist) {
    && !s.panicked && Cells(s, h) && Workers(s, h) && Conns(s, h) && PoolOk(s, h) && LogOk(s, h) && LocsOk(h) && TokensOk(s)
  }

  // ----- every step keeps it

  /** Nothing has changed but message `m`, connection `k`, worker `w` and where request `key` has got to. */
  ghost predicate Only(s: Server, s': Server, h: Hist, h': Hist, m: MsgRef, k: int, w: int, key: (nat, nat)) {
    && |s'.heap| == |s.heap| == |h.own| == |h'.own| && Sized(s, h) && Sized(s', h') && |s'.conns| == |s.conns|
    && |s'.workers| == |s.workers| && s'.pendingResponses == s.pendingResponses && h.log <= h'.log
    && (forall x :: 0 <= x < |s.heap| && x != m ==> s'.heap[x] == s.heap[x] && h'.own[x] == h.own[x])
    && (forall x :: 0 <= x < |s.workers| && x != w ==> s'.workers[x] == s.workers[x])
    && (forall x :: 0 <= x < |s.conns| ==> h.decoded[x] <= h'.decoded[x])
    && (forall x :: 0 <= x < |s.conns| && x != k ==>
          s'.conns[x] == s.conns[x] && h'.inHand[x] == h.inHand[x] && h'.answered[x] == h.answered[x])
    && (forall e :: e in h.loc && e != key ==> e in h'.loc && h'.loc[e] == h.loc[e])
    && (key in h.loc ==> key.0 == k && (h.loc[key] == Cell(m) || h.loc[key] == InHand))
  }

  /** Message `m` belongs to no other worker and no other connection. */
  ghost predicate NotOthers(h: Hist, m: MsgRef, k: int, w: int)
    requires m < |h.own|
  {
    match h.own[m]
    case AtReader(x, _) => x == k
    case AtWorker(x, _, _) => x == w
    case InQueue(x, _) => x == k
    case _ => true
  }

  /** What has been answered stays answered. */
  lemma AnswersStay(h: Hist, h': Hist, k: nat, key: (nat, nat))
    requires k < |h.answered| && k < |h.decoded| && AnswersOk(h, k)
    requires k < |h'.answered| && k < |h'.decoded| && h'.answered[k] == h.answered[k] && h.decoded[k] <= h'.decoded[k]
    requires h.log <= h'.log
    requires forall e :: e in h.loc && e != key ==> e in h'.loc && h'.loc[e] == h.loc[e]
    requires key in h.loc ==> h.loc[key] != Answered
    ensures AnswersOk(h', k)
  {
  }

  lemma CellsStay(s: Server, s': Server, h: Hist, h': Hist, m: MsgRef, k: int, w: int, key: (nat, nat))
    requires Cells(s, h) && Only(s, s', h, h', m, k, w, key)
    requires m < |s.heap| ==> CellOk(s', h', m)
    ensures Cells(s', h')
  {
    forall x | 0 <= x < |s'.heap|
      ensures CellOk(s', h', x)
    {
      if x != m {
        assert CellOk(s, h, x);
      }
    }
  }

  lemma WorkersStay(s: Server, s': Server, h: Hist, h': Hist, m: MsgRef, k: int, w: int, key: (nat, nat))
    requires Workers(s, h) && Only(s, s', h, h', m, k, w, key)
    requires m < |s.heap| ==> NotOthers(h, m, k, w)
    requires 0 <= w < |s.workers| ==> WorkerOk(s', h', w)
    ensures Workers(s', h')
  {
    forall x | 0 <= x < |s'.workers|
      ensures WorkerOk(s', h', x)
    {
      if x != w {
        assert WorkerOk(s, h, x);
      }
    }
  }

  lemma ConnsStay(s: Server, s': Server, h: Hist, h': Hist, m: MsgRef, k: int, w: int, key: (nat, nat))
    requires Conns(s, h) && Only(s, s', h, h', m, k, w, key)
    requires m < |s.heap| ==> NotOthers(h, m, k, w)
    requires 0 <= k < |s.conns| ==> ConnOk(s', h', k)
    ensures Conns(s', h')
  {
    forall x | 0 <= x < |s'.conns|
      ensures ConnOk(s', h', x)
    {
      if x != k {
        assert ConnOk(s, h, x);
        AnswersStay(h, h', x, key);
      }
    }
  }

  lemma Elsewhere(s: Server, s': Server, h: Hist, h': Hist, m: MsgRef, k: int, w: int, key: (nat, nat))
    requires Cells(s, h) && Workers(s, h) && Conns(s, h) && Only(s, s', h, h', m, k, w, key)
    requires m < |s.heap| ==> NotOthers(h, m, k, w) && CellOk(s', h', m)
    requires 0 <= w < |s.workers| ==> WorkerOk(s', h', w)
    requires 0 <= k < |s.conns| ==> ConnOk(s', h', k)
    ensures Cells(s', h') && Workers(s', h') && Conns(s', h')
  {
    CellsStay(s, s', h, h', m, k, w, key);
    WorkersStay(s, s', h, h', m, k, w, key);
    ConnsStay(s, s', h, h', m, k, w, key);
  }

  lemma {:induction false} InFlightHas(workers: seq<Worker>, w: nat)
    requires w < |workers| && !workers[w].stage.Gone?
    ensures InFlight(workers) > 0
  {
    if w < |workers| - 1 {
      InFlightHas(workers[..|workers| - 1], w);
    }
  }

  lemma {:induction false} InFlightUpdate(workers: seq<Worker>, w: nat, worker: Worker)
    requires w < |workers|
    ensures InFlight(workers[w := worker])
            == InFlight(workers) - (if workers[w].stage.Gone? then 0 else 1) + (if worker.stage.Gone? then 0 else 1)
  {
    var n := |workers| - 1;
    var updated := workers[w := worker];
    if w == n {
      assert updated[..n] == workers[..n];
    } else {
      assert updated[..n] == workers[..n][w := worker];
      InFlightUpdate(workers[..n], w, worker);
    }
  }

  lemma LogStays(s: Server, s': Server, h: Hist)
    requires LogOk(s, h) && s'.codec == s.codec && s'.handlers == s.handlers
    ensures LogOk(s', h)
  {
    forall e | e in h.log
      ensures Dispatched(s', e.0, e.1)
    {
      assert Dispatched(s, e.0, e.1);
      var code, body :| e.1 == Dispatch(s.codec, s.handlers, e.0, code, body);
      assert e.1 == Dispatch(s'.codec, s'.handlers, e.0, code, body);
    }
  }

  lemma KeepsAccept(s: Server, h: Hist) returns (h': Hist)
    requires Inv(s, h) && Enabled(s, Accept)
    ensures Inv(Apply(s, Accept), h')
    ensures h' == h.(decoded := h.decoded + [[]], inHand := h.inHand + [0], answered := h.answered + [[]])
  {
    h' := h.(decoded := h.decoded + [[]], inHand := h.inHand + [0], answered := h.answered + [[]]);
    var s' := Apply(s, Accept);
    forall m | 0 <= m < |s'.heap|
      ensures CellOk(s', h', m)
    {
      assert CellOk(s, h, m);
    }
    forall w | 0 <= w < |s'.workers|
      ensures WorkerOk(s', h', w)
    {
      assert WorkerOk(s, h, w);
    }
    forall k | 0 <= k < |s.conns|
      ensures ConnOk(s', h', k)
    {
      assert ConnOk(s, h, k);
      assert AnswersOk(h', k);
    }
    LogStays(s, s', h);
  }

  /** A fresh message is as good as one that was just put into the pool. */
  lemma Grow(s: Server, h: Hist) returns (s1: Server, h1: Hist)
    requires Inv(s, h)
    ensures s1 == s.(heap := s.heap + [ServerMessage(None, None, None)], pool := s.pool + multiset{|s.heap|})
    ensures h1 == h.(own := h.own + [Pooled])
    ensures Inv(s1, h1)
  {
    s1 := s.(heap := s.heap + [ServerMessage(None, None, None)], pool := s.pool + multiset{|s.heap|});
    h1 := h.(own := h.own + [Pooled]);
    forall m | 0 <= m < |s.heap|
      ensures CellOk(s1, h1, m)
    {
      assert CellOk(s, h, m);
    }
    forall w | 0 <= w < |s1.workers|
      ensures WorkerOk(s1, h1, w)
    {
      assert WorkerOk(s, h, w);
    }
    forall k | 0 <= k < |s1.conns|
      ensures ConnOk(s1, h1, k)
    {
      assert ConnOk(s, h, k);
      assert AnswersOk(h1, k);
    }
    LogStays(s, s1, h);
  }

  /** All that a step has touched is in order again, and nothing else has changed. */
  ghost predicate Settled(s: Server, s': Server, h: Hist, h': Hist, m: MsgRef, k: int, w: int, key: (nat, nat)) {
    && Only(s, s', h, h', m, k, w, key)
    && (m < |s.heap| ==> NotOthers(h, m, k, w) && CellOk(s', h', m))
    && (0 <= w < |s.workers| ==> WorkerOk(s', h', w))
    && (0 <= k < |s.conns| ==> ConnOk(s', h', k))
    && PoolOk(s', h') && LocsOk(h') && TokensOk(s') && !s'.panicked
    && s'.codec == s.codec && s'.handlers == s.handlers && h'.log == h.log
  }

  lemma KeepsBy(s: Server, s': Server, h: Hist, h': Hist, m: MsgRef, k: int, w: int, key: (nat, nat))
    requires Inv(s, h) && Settled(s, s', h, h', m, k, w, key)
    ensures Inv(s', h')
  {
    hide Cells, Workers, Conns, CellOk, WorkerOk, ConnOk, PoolOk, LocsOk, TokensOk, Only, NotOthers;
    Elsewhere(s, s', h, h', m, k, w, key);
    LogStays(s, s', h');
  }

  ghost function ReceivedInto(h: Hist, k: nat, p: Packet, m: MsgRef): Hist
    requires k < |h.decoded| && m < |h.own|
  {
    var i := |h.decoded[k]|;
    h.(own := h.own[m := AtReader(k, i)], loc := h.loc[(k, i) := Cell(m)], decoded := h.decoded[k := h.decoded[k] + [p]])
  }

  lemma ReceivedOnly(s: Server, h: Hist, k: nat, p: Packet, m: MsgRef)
    requires Inv(s, h) && Enabled(s, Receive(k, p, m)) && m < |s.heap|
    ensures k < |h.decoded| && m < |h.own| && h.own[m].Pooled? && (k, |h.decoded[k]|) !in h.loc
    ensures var s', h' := Apply(s, Receive(k, p, m)), ReceivedInto(h, k, p, m);
            && Only(s, s', h, h', m, k, -1, (k, |h.decoded[k]|)) && PoolOk(s', h') && LocsOk(h') && TokensOk(s')
            && s'.conns[k] == s.conns[k].(reader := Holding(m)) && s'.heap[m] == s.heap[m].(request := Some(p), clientAddr := Some(k))
  {
    hide CellOk, WorkerOk, ConnOk, LogOk, InFlight;
  }

  lemma Received(s: Server, h: Hist, k: nat, p: Packet, m: MsgRef)
    requires Inv(s, h) && Enabled(s, Receive(k, p, m)) && m < |s.heap|
    ensures k < |h.decoded| && m < |h.own|
    ensures Settled(s, Apply(s, Receive(k, p, m)), h, ReceivedInto(h, k, p, m), m, k, -1, (k, |h.decoded[k]|))
  {
    hide LogOk, Dispatched, InFlight, Only, PoolOk, LocsOk, WorkerOk, TokensOk;
    ReceivedOnly(s, h, k, p, m);
    assert CellOk(s, h, m) && ConnOk(s, h, k);
    AnswersStay(h, ReceivedInto(h, k, p, m), k, (k, |h.decoded[k]|));
  }

  lemma KeepsReceivePooled(s: Server, h: Hist, k: nat, p: Packet, m: MsgRef) returns (h': Hist)
    requires Inv(s, h) && Enabled(s, Receive(k, p, m)) && m < |s.heap|
    ensures Inv(Apply(s, Receive(k, p, m)), h')
    ensures h'.decoded == h.decoded[k := h.decoded[k] + [p]] && h'.log == h.log && h'.answered == h.answered
  {
    hide Inv, Settled, Enabled, Apply;
    Received(s, h, k, p, m);
    h' := ReceivedInto(h, k, p, m);
    KeepsBy(s, Apply(s, Receive(k, p, m)), h, h', m, k, -1, (k, |h.decoded[k]|));
  }

  lemma KeepsReceive(s: Server, h: Hist, k: nat, p: Packet, m: MsgRef) returns (h': Hist)
    requires Inv(s, h) && Enabled(s, Receive(k, p, m))
    ensures Inv(Apply(s, Receive(k, p, m)), h')
    ensures h'.decoded == h.decoded[k := h.decoded[k] + [p]] && h'.log == h.log && h'.answered == h.answered
  {
    if m < |s.heap| {
      h' := KeepsReceivePooled(s, h, k, p, m);
    } else {
      var s1, h1 := Grow(s, h);
      h' := KeepsReceivePooled(s1, h1, k, p, m);
      assert Apply(s1, Receive(k, p, m)) == Apply(s, Receive(k, p, m)) by {
        assert s1.pool - multiset{m} == s.pool;
        assert s1.heap[m := Apply(s, Receive(k, p, m)).heap[m]] == Apply(s, Receive(k, p, m)).heap;
      }
    }
  }

  /** The reader lets go of its message, which the worker about to start will carry. */
  /** The message a reader holds, in the hands of a worker yet to come. */
  ghost function HandedOver(s: Server, h: Hist, m: MsgRef, k: nat): Hist
    requires m < |h.own| && h.own[m].AtReader?
  {
    h.(own := h.own[m := AtWorker(|s.workers|, k, h.own[m].i)])
  }

  lemma Released(s: Server, h: Hist, k: nat, s1: Server)
    requires Inv(s, h) && Enabled(s, Spawn(k))
    requires s1 == s.(tokens := s.tokens + 1, conns := s.conns[k := s.conns[k].(reader := Reading)])
    ensures var m := s.conns[k].reader.m;
            && m < |s.heap| == |h.own| && h.own[m].AtReader?
            && var h' := HandedOver(s, h, m, k);
            && Carries(h', m, h'.own[m], k, h.own[m].i)
            && s.heap[m] == ServerMessage(Some(h.decoded[k][h.own[m].i]), None, Some(k))
            && Sized(s1, h') && CellOk(s1, h', m) && ConnOk(s1, h', k) && PoolOk(s1, h') && LocsOk(h')
            && NotOthers(h, m, k, -1) && Only(s, s1, h, h', m, k, -1, (k, |h.decoded[k]|))
  {
    var m := s.conns[k].reader.m;
    assert ConnOk(s, h, k) && CellOk(s, h, m);
    AnswersStay(h, HandedOver(s, h, m, k), k, (k, |h.decoded[k]|));
  }

  lemma HandOver(s: Server, h: Hist, k: nat) returns (s1: Server, h': Hist)
    requires Inv(s, h) && Enabled(s, Spawn(k))
    ensures s1 == s.(tokens := s.tokens + 1, conns := s.conns[k := s.conns[k].(reader := Reading)])
    ensures var m := s.conns[k].reader.m;
            && m < |s.heap| == |h.own| && h.own[m].AtReader? && h' == HandedOver(s, h, m, k)
            && Carries(h', m, AtWorker(|s.workers|, k, h.own[m].i), k, h.own[m].i)
            && s.heap[m] == ServerMessage(Some(h.decoded[k][h.own[m].i]), None, Some(k))
    ensures Cells(s1, h') && Workers(s1, h') && Conns(s1, h') && PoolOk(s1, h') && LogOk(s1, h') && LocsOk(h')
  {
    hide Cells, Workers, Conns, CellOk, WorkerOk, ConnOk, PoolOk, LocsOk, TokensOk, AnswersOk, InFlight, Only, NotOthers;
    s1 := s.(tokens := s.tokens + 1, conns := s.conns[k := s.conns[k].(reader := Reading)]);
    var m := s.conns[k].reader.m;
    Released(s, h, k, s1);
    h' := HandedOver(s, h, m, k);
    Elsewhere(s, s1, h, h', m, k, -1, (k, |h.decoded[k]|));
    LogStays(s, s1, h');
  }

  /** One more worker, and nothing else. */
  lemma WorkerJoins(s: Server, h: Hist, worker: Worker, s': Server)
    requires Cells(s, h) && Workers(s, h) && Conns(s, h) && LogOk(s, h)
    requires s' == s.(workers := s.workers + [worker])
    requires WorkerOk(s', h, |s.workers|)
    ensures Cells(s', h) && Workers(s', h) && Conns(s', h) && LogOk(s', h)
    ensures InFlight(s'.workers) == InFlight(s.workers) + if worker.stage.Gone? then 0 else 1
  {
    forall x | 0 <= x < |s.workers| ensures WorkerOk(s', h, x) { assert WorkerOk(s, h, x); }
    forall x | 0 <= x < |s.heap| ensures CellOk(s', h, x) { assert CellOk(s, h, x); }
    forall x | 0 <= x < |s.conns| ensures ConnOk(s', h, x) { assert ConnOk(s, h, x); }
    assert s'.workers[..|s.workers|] == s.workers;
    LogStays(s, s', h);
  }

  lemma KeepsSpawn(s: Server, h: Hist, k: nat) returns (h': Hist)
    requires Inv(s, h) && Enabled(s, Spawn(k))
    ensures Inv(Apply(s, Spawn(k)), h')
    ensures h'.decoded == h.decoded && h'.log == h.log && h'.answered == h.answered
  {
    var s1;
    s1, h' := HandOver(s, h, k);
    WorkerJoins(s1, h', Worker(k, s.conns[k].reader.m, Begun), Apply(s, Spawn(k)));
  }

  lemma QuitHolding(s: Server, h: Hist, k: nat)
    requires Inv(s, h) && Enabled(s, ReaderQuit(k)) && s.conns[k].reader.Holding?
    ensures var m := s.conns[k].reader.m;
            && m < |h.own| && h.own[m].AtReader?
            && var key := (k, h.own[m].i); Settled(s, Apply(s, ReaderQuit(k)), h, Given(h, m, key), m, k, -1, key)
  {
    var m := s.conns[k].reader.m;
    assert ConnOk(s, h, k) && CellOk(s, h, m);
    AnswersStay(h, Given(h, m, (k, h.own[m].i)), k, (k, h.own[m].i));
  }

  lemma QuitIdle(s: Server, h: Hist, k: nat)
    requires Inv(s, h) && Enabled(s, ReaderQuit(k)) && !s.conns[k].reader.Holding?
    ensures k < |h.decoded| && Settled(s, Apply(s, ReaderQuit(k)), h, h, |s.heap|, k, -1, (k, |h.decoded[k]|))
  {
    assert ConnOk(s, h, k);
  }

  lemma KeepsReaderQuit(s: Server, h: Hist, k: nat) returns (h': Hist)
    requires Inv(s, h) && Enabled(s, ReaderQuit(k))
    ensures Inv(Apply(s, ReaderQuit(k)), h')
    ensures h'.decoded == h.decoded && h'.log == h.log && h'.answered == h.answered
  {
    hide Inv, Settled, Apply;
    if s.conns[k].reader.Holding? {
      QuitHolding(s, h, k);
      var m := s.conns[k].reader.m;
      h' := Given(h, m, (k, h.own[m].i));
      KeepsBy(s, Apply(s, ReaderQuit(k)), h, h', m, k, -1, (k, h.own[m].i));
    } else {
      QuitIdle(s, h, k);
      h' := h;
      KeepsBy(s, Apply(s, ReaderQuit(k)), h, h', |s.heap|, k, -1, (k, |h.decoded[k]|));
    }
  }

  lemma KeepsBegin(s: Server, h: Hist, w: nat)
    requires Inv(s, h) && Enabled(s, Begin(w))
    ensures Inv(Apply(s, Begin(w)), h)
  {
    var s' := Apply(s, Begin(w));
    var m := s.workers[w].m;
    assert WorkerOk(s, h, w) && CellOk(s, h, m);
    InFlightUpdate(s.workers, w, s'.workers[w]);
    Elsewhere(s, s', h, h, m, -1, w, (|s.conns|, 0));
    LogStays(s, s', h);
  }

  lemma KeepsHandle(s: Server, h: Hist, w: nat, code: uint32, body: Slice) returns (h': Hist)
    requires Inv(s, h) && Enabled(s, Handle(w, code, body))
    ensures Inv(Apply(s, Handle(w, code, body)), h')
    ensures h'.decoded == h.decoded && h'.answered == h.answered
    ensures var req := s.workers[w].stage.req;
            req.Some? && h'.log == h.log + {(req.value, Dispatch(s.codec, s.handlers, req.value, code, body))}
  {
    var s' := Apply(s, Handle(w, code, body));
    var m := s.workers[w].m;
    assert WorkerOk(s, h, w) && CellOk(s, h, m);
    var req := s.workers[w].stage.req.value;
    var rsp := Dispatch(s.codec, s.handlers, req, code, body);
    h' := h.(log := h.log + {(req, rsp)});
    InFlightUpdate(s.workers, w, s'.workers[w]);
    Elsewhere(s, s', h, h', m, -1, w, (|s.conns|, 0));
    LogStays(s, s', h);
    assert Dispatched(s', req, rsp);
  }

  lemma QueuedAnswer(s: Server, h: Hist, w: nat)
    requires Inv(s, h) && Enabled(s, Answer(w))
    ensures var k, m := s.workers[w].k, s.workers[w].m;
            && m < |h.own| && h.own[m].AtWorker?
            && var i := h.own[m].i;
            Settled(s, Apply(s, Answer(w)), h, h.(own := h.own[m := InQueue(k, i)]), m, k, w, (k, i))
  {
    hide InFlight, LogOk, Dispatched;
    var s' := Apply(s, Answer(w));
    var k, m := s.workers[w].k, s.workers[w].m;
    assert WorkerOk(s, h, w) && CellOk(s, h, m) && ConnOk(s, h, k);
    var i := h.own[m].i;
    InFlightUpdate(s.workers, w, s'.workers[w]);
    AnswersStay(h, h.(own := h.own[m := InQueue(k, i)]), k, (k, i));
  }

  lemma KeepsAnswer(s: Server, h: Hist, w: nat) returns (h': Hist)
    requires Inv(s, h) && Enabled(s, Answer(w))
    ensures Inv(Apply(s, Answer(w)), h')
    ensures h'.decoded == h.decoded && h'.log == h.log && h'.answered == h.answered
  {
    QueuedAnswer(s, h, w);
    hide Inv, Settled, Apply;
    var k, m := s.workers[w].k, s.workers[w].m;
    var i := h.own[m].i;
    h' := h.(own := h.own[m := InQueue(k, i)]);
    KeepsBy(s, Apply(s, Answer(w)), h, h', m, k, w, (k, i));
  }

  ghost function Given(h: Hist, m: MsgRef, key: (nat, nat)): Hist
    requires m < |h.own|
  {
    h.(own := h.own[m := Lost], loc := h.loc[key := Dropped])
  }

  lemma GivenUp(s: Server, h: Hist, w: nat)
    requires Inv(s, h) && Enabled(s, GiveUp(w))
    ensures var k, m := s.workers[w].k, s.workers[w].m;
            && m < |h.own| && h.own[m].AtWorker?
            && var key := (k, h.own[m].i); Settled(s, Apply(s, GiveUp(w)), h, Given(h, m, key), m, k, w, key)
  {
    hide InFlight, LogOk, Dispatched;
    var s' := Apply(s, GiveUp(w));
    var k, m := s.workers[w].k, s.workers[w].m;
    assert WorkerOk(s, h, w) && CellOk(s, h, m) && ConnOk(s, h, k);
    InFlightUpdate(s.workers, w, s'.workers[w]);
    AnswersStay(h, Given(h, m, (k, h.own[m].i)), k, (k, h.own[m].i));
  }

  lemma KeepsGiveUp(s: Server, h: Hist, w: nat) returns (h': Hist)
    requires Inv(s, h) && Enabled(s, GiveUp(w))
    ensures Inv(Apply(s, GiveUp(w)), h')
    ensures h'.decoded == h.decoded && h'.log == h.log && h'.answered == h.answered
  {
    GivenUp(s, h, w);
    hide Inv, Settled, Apply;
    var k, m := s.workers[w].k, s.workers[w].m;
    h' := Given(h, m, (k, h.own[m].i));
    KeepsBy(s, Apply(s, GiveUp(w)), h, h', m, k, w, (k, h.own[m].i));
  }

  lemma KeepsLeave(s: Server, h: Hist, w: nat)
    requires Inv(s, h) && Enabled(s, Leave(w))
    ensures Inv(Apply(s, Leave(w)), h)
  {
    var s' := Apply(s, Leave(w));
    assert WorkerOk(s, h, w);
    InFlightUpdate(s.workers, w, s'.workers[w]);
    Elsewhere(s, s', h, h, |s.heap|, -1, w, (|s.conns|, 0));
    LogStays(s, s', h);
  }

  /** The oldest response in hand: where its request has got to, and its message in the pool. */
  ghost function InHandNow(h: Hist, k: nat, m: MsgRef): Hist
    requires k < |h.inHand| && m < |h.own| && h.own[m].InQueue?
  {
    var i := h.own[m].i;
    h.(own := h.own[m := Pooled], loc := h.loc[(k, i) := InHand], inHand := h.inHand[k := i])
  }

  lemma TakenOut(s: Server, h: Hist, k: nat)
    requires Inv(s, h) && Enabled(s, TakeResponse(k))
    ensures var s', m := Apply(s, TakeResponse(k)), s.conns[k].responses[0];
            && k < |h.inHand| && m < |h.own| && h.own[m].InQueue?
            && Settled(s, s', h, InHandNow(h, k, m), m, k, -1, (k, h.own[m].i))
  {
    var s' := Apply(s, TakeResponse(k));
    var m := s.conns[k].responses[0];
    assert ConnOk(s, h, k) && CellOk(s, h, m);
    var h' := InHandNow(h, k, m);
    assert forall j :: 0 <= j < |s'.conns[k].responses| ==> s'.conns[k].responses[j] == s.conns[k].responses[j + 1];
    AnswersStay(h, h', k, (k, h.own[m].i));
  }

  lemma KeepsTakeResponse(s: Server, h: Hist, k: nat) returns (h': Hist)
    requires Inv(s, h) && Enabled(s, TakeResponse(k))
    ensures Inv(Apply(s, TakeResponse(k)), h')
    ensures h'.decoded == h.decoded && h'.log == h.log && h'.answered == h.answered
  {
    hide Inv, Settled, Apply;
    TakenOut(s, h, k);
    var m := s.conns[k].responses[0];
    h' := InHandNow(h, k, m);
    KeepsBy(s, Apply(s, TakeResponse(k)), h, h', m, k, -1, (k, h.own[m].i));
  }

  /** After the response in hand has been written, or could not be encoded. */
  ghost function SentNow(s: Server, h: Hist, k: nat): Hist
    requires k < |s.conns| && s.conns[k].writer.Sending? && k < |h.inHand| && k < |h.answered|
  {
    if SEmits(s, k).None? then h
    else h.(loc := h.loc[(k, h.inHand[k]) := Answered],
            answered := h.answered[k := h.answered[k] + [Reply(h.inHand[k], SEmits(s, k).value)]])
  }

  lemma SentOut(s: Server, h: Hist, k: nat)
    requires Inv(s, h) && Enabled(s, SendResponse(k))
    ensures k < |h.inHand| && k < |h.answered|
    ensures Settled(s, Apply(s, SendResponse(k)), h, SentNow(s, h, k), |s.heap|, k, -1, (k, h.inHand[k]))
    ensures SEmits(s, k).Some? ==>
              k < |h.decoded| && h.inHand[k] < |h.decoded[k]| && (h.decoded[k][h.inHand[k]], SEmits(s, k).value) in h.log
  {
    hide LogOk, Dispatched, InFlight;
    assert ConnOk(s, h, k);
  }

  lemma KeepsSendResponse(s: Server, h: Hist, k: nat) returns (h': Hist)
    requires Inv(s, h) && Enabled(s, SendResponse(k))
    ensures Inv(Apply(s, SendResponse(k)), h')
    ensures h'.decoded == h.decoded && h'.log == h.log
    ensures SEmits(s, k).None? ==> h' == h
    ensures SEmits(s, k).Some? ==>
              h.inHand[k] < |h.decoded[k]| && (h.decoded[k][h.inHand[k]], SEmits(s, k).value) in h.log
              && h'.answered == h.answered[k := h.answered[k] + [Reply(h.inHand[k], SEmits(s, k).value)]]
  {
    hide Inv, Settled, Apply;
    SentOut(s, h, k);
    h' := SentNow(s, h, k);
    KeepsBy(s, Apply(s, SendResponse(k)), h, h', |s.heap|, k, -1, (k, h.inHand[k]));
  }

  lemma KeepsWriterQuit(s: Server, h: Hist, k: nat)
    requires Inv(s, h) && Enabled(s, WriterQuit(k))
    ensures Inv(Apply(s, WriterQuit(k)), h)
  {
    var s' := Apply(s, WriterQuit(k));
    assert ConnOk(s, h, k);
    Elsewhere(s, s', h, h, |s.heap|, k, -1, (k, |h.decoded[k]|));
    LogStays(s, s', h);
  }

  /** The history after a step, and how what was decoded, dispatched and answered has grown. */
  lemma Keeps(s: Server, h: Hist, l: SStep) returns (h': Hist)
    requires Inv(s, h) && Enabled(s, l)
    ensures Inv(Apply(s, l), h')
    ensures !l.Handle? ==> h'.log == h.log
    ensures l.Handle? ==>
              var req := s.workers[l.w].stage.req;
              req.Some? && h'.log == h.log + {(req.value, Dispatch(s.codec, s.handlers, req.value, l.code, l.body))}
    ensures l.Accept? ==> h'.decoded == h.decoded + [[]] && h'.answered == h.answered + [[]]
    ensures l.Receive? ==> h'.decoded == h.decoded[l.k := h.decoded[l.k] + [l.p]] && h'.answered == h.answered
    ensures !l.Accept? && !l.Receive? ==> h'.decoded == h.decoded
    ensures !l.Accept? && !l.SendResponse? ==> h'.answered == h.answered
    ensures l.SendResponse? && SEmits(s, l.k).None? ==> h'.answered == h.answered
    ensures l.SendResponse? && SEmits(s, l.k).Some? ==>
              h.inHand[l.k] < |h.decoded[l.k]| && (h.decoded[l.k][h.inHand[l.k]], SEmits(s, l.k).value) in h.log
              && h'.answered == h.answered[l.k := h.answered[l.k] + [Reply(h.inHand[l.k], SEmits(s, l.k).value)]]
  {
    h' := h;
    match l
    case Accept => h' := KeepsAccept(s, h);
    case Receive(k, p, m) => h' := KeepsReceive(s, h, k, p, m);
    case Spawn(k) => h' := KeepsSpawn(s, h, k);
    case ReaderQuit(k) => h' := KeepsReaderQuit(s, h, k);
    case Begin(w) => KeepsBegin(s, h, w);
    case Handle(w, code, body) => h' := KeepsHandle(s, h, w, code, body);
    case Answer(w) => h' := KeepsAnswer(s, h, w);
    case GiveUp(w) => h' := KeepsGiveUp(s, h, w);
    case Leave(w) => KeepsLeave(s, h, w);
    case TakeResponse(k) => h' := KeepsTakeResponse(s, h, k);
    case SendResponse(k) => h' := KeepsSendResponse(s, h, k);
    case WriterQuit(k) => KeepsWriterQuit(s, h, k);
  }
}
