/**
 net/dogrpc/client.go in its own form: AsyncResult objects updated in place, the request channel, the result
 pool, the map each connection shares between its two goroutines, and the loops over that map.

 Every method is what one goroutine does without letting another in between, and is proved to be the step of
 ClientSteps it stands for, so what is proved about all runs of that machine holds of this code. The ghost field
 `model` is the machine's state; `Valid` says that the objects hold exactly what it says.
 */
module ClientCode {
  import opened Wrappers
  import opened Bytes
  import opened Encoding
  import S = ClientSteps
  import Safety = ClientSafety
  import Runs = ClientRuns

  class AsyncResult {
    ghost const ref: S.Ref
    var Request: Option<Packet>
    var Response: Option<Packet>
    var Error: Option<S.CallError>
    var Done: S.Done
    var canceled: bool
    var skipResponse: bool

    constructor (ghost ref: S.Ref)
      ensures this.ref == ref && Cell() == S.AsyncResult(None, None, None, S.NoChan, false, false)
    {
      this.ref := ref;
      Request, Response, Error, Done, canceled, skipResponse := None, None, None, S.NoChan, false, false;
    }

    ghost function Cell(): S.AsyncResult
      reads this
    {
      S.AsyncResult(Request, Response, Error, Done, canceled, skipResponse)
    }

    /** What `callAsync` sets before it offers the result to the queue. */
    method Prepare(req: Packet, skipResponse: bool)
      modifies this
      ensures Cell() == old(Cell()).(request := Some(req), skipResponse := skipResponse,
                                     done := if skipResponse then old(Done) else S.Open)
    {
      Request, this.skipResponse := Some(req), skipResponse;
      if !skipResponse {
        Done := S.Open;
      }
    }

    /** An open result is completed with an error. */
    method Fail(err: Option<S.CallError>)
      requires !Done.Closed?
      modifies this
      ensures Cell() == old(Cell()).(error := err, done := if old(Done).Open? then S.Closed else S.NoChan)
    {
      Error := err;
      if !Done.NoChan? {
        Done := S.Closed;
      }
    }

    /** What `releaseAsyncResult` clears; the canceled flag is not among it. */
    method Clear()
      modifies this
      ensures Cell() == old(Cell()).(response := None, error := None, done := S.NoChan, request := None)
    {
      Response, Error, Done, Request := None, None, S.NoChan, None;
    }
  }

  /** What the two goroutines of one connection share. */
  class Connection {
    ghost const k: nat
    var pendingRequests: map<uint32, AsyncResult>

    constructor (ghost k: nat)
      ensures this.k == k && pendingRequests == map[]
    {
      this.k, pendingRequests := k, map[];
    }
  }

  ghost function Refs(s: seq<AsyncResult>): (r: seq<S.Ref>)
    ensures |r| == |s|
    ensures forall i :: 0 <= i < |s| ==> r[i] == s[i].ref
  {
    seq(|s|, i requires 0 <= i < |s| => s[i].ref)
  }

  ghost function RefMap(m: map<uint32, AsyncResult>): (r: map<uint32, S.Ref>)
    ensures r.Keys == m.Keys
    ensures forall id :: id in m ==> r[id] == m[id].ref
  {
    map id | id in m :: m[id].ref
  }

  lemma RefsPush(s: seq<AsyncResult>, m: AsyncResult)
    ensures Refs(s + [m]) == Refs(s) + [m.ref]
    ensures multiset(Refs(s + [m])) == multiset(Refs(s)) + multiset{m.ref}
  {
    assert Refs(s + [m]) == Refs(s) + [m.ref];
  }

  lemma RefsPop(s: seq<AsyncResult>, i: nat)
    requires i < |s|
    ensures Refs(s[..i] + s[i + 1..]) == Refs(s)[..i] + Refs(s)[i + 1..]
    ensures multiset(Refs(s[..i] + s[i + 1..])) == multiset(Refs(s)) - multiset{s[i].ref}
  {
    assert Refs(s) == Refs(s)[..i] + [s[i].ref] + Refs(s)[i + 1..];
    assert Refs(s[..i] + s[i + 1..]) == Refs(s)[..i] + Refs(s)[i + 1..];
  }

  ghost function GivenUp(s: S.Client, m: S.Ref, err: S.CallError, usePool: bool): S.Client
    requires m < |s.heap|
  {
    if !s.heap[m].done.NoChan? then S.FinishWith(s, m, Some(err)) else if usePool then S.Release(s, m) else s
  }

  lemma Advance(s0: S.Client, run: seq<S.Step>, s: S.Client, h: Safety.Hist, l: S.Step)
    returns (run': seq<S.Step>, h': Safety.Hist)
    requires Runs.Legal(s0, run) && Runs.After(s0, run) == s && Safety.Inv(s, h) && S.Enabled(s, l)
    ensures run' == run + [l] && Runs.Legal(s0, run') && Runs.After(s0, run') == S.Apply(s, l)
    ensures Safety.Inv(S.Apply(s, l), h')
  {
    run' := run + [l];
    assert run'[..|run|] == run;
    h' := Safety.Keeps(s, h, l);
  }

  lemma AdvanceTwice(s0: S.Client, run: seq<S.Step>, s: S.Client, h: Safety.Hist, l: S.Step, l': S.Step)
    returns (run': seq<S.Step>, h': Safety.Hist)
    requires Runs.Legal(s0, run) && Runs.After(s0, run) == s && Safety.Inv(s, h) && S.Enabled(s, l)
    requires S.Enabled(S.Apply(s, l), l')
    ensures run' == run + [l, l'] && Runs.Legal(s0, run') && Runs.After(s0, run') == S.Apply(S.Apply(s, l), l')
    ensures Safety.Inv(S.Apply(S.Apply(s, l), l'), h')
  {
    run', h' := Advance(s0, run, s, h, l);
    run', h' := Advance(s0, run', S.Apply(s, l), h', l');
    assert run' == run + [l, l'];
  }

  lemma EvictIsSafe(s: S.Client, h: Safety.Hist, c: nat)
    requires Safety.Inv(s, h) && S.CallAt(s, c) && s.calls[c].phase.Evicting?
    ensures |s.queue| <= s.pendingRequests
    ensures S.Enabled(s, S.EvictOldest(c)) && !S.DoEvict(s, c).panicked
  {
    if s.queue != [] {
      assert Safety.At(s, h, s.queue[0], Safety.Queued);
    }
    var _ := Safety.Keeps(s, h, S.EvictOldest(c));
  }

  lemma SameSize(m: map<uint32, AsyncResult>)
    ensures |RefMap(m)| == |m|
  {
    assert RefMap(m).Keys == m.Keys;
  }

  ghost function Unfiled(s: S.Client, k: nat, id: uint32): S.Client
    requires k < |s.conns|
  {
    S.SetConn(s, k, s.conns[k].(pending := s.conns[k].pending - {id})).(count := U32(s.count - 1))
  }

  ghost function Answered(s: S.Client, m: S.Ref, packet: Packet): S.Client
    requires m < |s.heap|
  {
    S.CloseDone(s.(heap := s.heap[m := s.heap[m].(response := Some(packet))]), m)
  }

  ghost function Canceled(pending: map<uint32, AsyncResult>): set<uint32>
    reads pending.Values
  {
    set id | id in pending && pending[id].canceled
  }

  /** `atomic.AddUint32(&count, ^uint32(0))`: one less, and from 0 round to the largest word. */
  function Decrement(count: uint32): (r: uint32)
    ensures r == U32(count - 1)
  {
    if count == 0 then TWO_32 - 1 else count - 1
  }

  function Lowered(count: uint32, n: nat): uint32 {
    if n == 0 then count else Decrement(Lowered(count, n - 1))
  }

  lemma {:induction false} LoweredBy(count: uint32, n: nat)
    ensures Lowered(count, n) == U32(count - n)
  {
    if n > 0 {
      LoweredBy(count, n - 1);
    }
  }

  lemma {:induction false} LoweredFirst(count: uint32, n: nat)
    requires n > 0
    ensures Lowered(Lowered(count, 1), n - 1) == Lowered(count, n)
  {
    if n > 1 {
      LoweredFirst(count, n - 1);
    }
  }

  /**
   The over-limit sweep. The walk takes the entries in any order, lowers the counter for each, and on every
   canceled one deletes the entry of the request the writer itself has just filed.
   */
  method Walk(pendingRequests: map<uint32, AsyncResult>, pendingRequestsCount: uint32, msgID: uint32)
    returns (pending: map<uint32, AsyncResult>, count: uint32, ghost unvisited: bool, ghost walked: nat)
    ensures pending == if Canceled(pendingRequests) != {} then pendingRequests - {msgID} else pendingRequests
    ensures walked == |pendingRequests| - (if unvisited then 1 else 0) && count == Lowered(pendingRequestsCount, walked)
    ensures unvisited ==> msgID in pendingRequests && Canceled(pendingRequests) - {msgID} != {}
  {
    ghost var hot, cut := Canceled(pendingRequests), false;
    pending, count, unvisited, walked := pendingRequests, pendingRequestsCount, false, 0;
    var todo := pending.Keys;
    while todo != {}
      invariant todo <= pending.Keys
      invariant pending == if cut then pendingRequests - {msgID} else pendingRequests
      invariant if cut then hot != {} else !unvisited && hot <= todo
      invariant walked + |todo| + (if unvisited then 1 else 0) == |pendingRequests|
      invariant count == Lowered(pendingRequestsCount, walked)
      invariant unvisited ==> msgID in pendingRequests && msgID !in todo && hot - {msgID} != {}
    {
      var id :| id in todo;
      todo := todo - {id};
      count, walked := Decrement(count), walked + 1;
      if pending[id].canceled {
        assert id in hot;
        cut := true;
        if msgID in todo {
          assert id in hot - {msgID};
          unvisited := true;
        }
        pending, todo := pending - {msgID}, todo - {msgID};
      }
    }
  }

  lemma SweepCount(s: S.Client, k: nat, unvisited: bool, walked: nat, pending: map<uint32, S.Ref>)
    requires S.Enabled(s, S.WriterSweep(k, unvisited)) && walked == |s.conns[k].pending| - (if unvisited then 1 else 0)
    requires pending == S.DoSweep(s, k, unvisited).conns[k].pending
    ensures S.DoSweep(s, k, unvisited)
            == S.SetConn(s, k, s.conns[k].(pending := pending, writer := S.Swept(s.conns[k].writer.m)))
                .(count := Lowered(s.count, walked))
  {
    LoweredBy(s.count, walked);
  }

  /** `left` are the results in the map: each open, and filed under the Seq of its own request. */
  ghost predicate Apart(pending: map<uint32, AsyncResult>, left: set<AsyncResult>)
    reads pending.Values, left
  {
    && (forall id :: id in pending ==>
          pending[id] in left && pending[id].Request.Some? && pending[id].Request.value.ID() == id)
    && (forall m <- left ::
          m.Done.Open? && m.Request.Some? && m.Request.value.ID() in pending && pending[m.Request.value.ID()] == m)
  }

  /** The loop that ends `clientHandleConnection`, over the entries in any order. */
  method CompleteAll(pendingRequests: map<uint32, AsyncResult>, ghost left: set<AsyncResult>, err: Option<S.CallError>,
                     pendingRequestsCount: uint32)
    returns (count: uint32)
    requires Apart(pendingRequests, left)
    modifies left
    ensures forall m <- left :: m.Cell() == old(m.Cell()).(error := err, done := S.Closed)
    ensures forall m <- left :: m.Done.Closed? && m.Error == err
    ensures count == Lowered(pendingRequestsCount, |pendingRequests|)
  {
    count := pendingRequestsCount;
    var todo := pendingRequests.Keys;
    ghost var n: nat := 0;
    while todo != {}
      invariant todo <= pendingRequests.Keys && n + |todo| == |pendingRequests|
      invariant count == Lowered(pendingRequestsCount, n)
      invariant forall m <- left :: m.Cell() == if old(m.Request.value.ID()) in todo then old(m.Cell())
                                                else old(m.Cell()).(error := err, done := S.Closed)
    {
      var id :| id in todo;
      todo := todo - {id};
      n := n + 1;
      count := Decrement(count);
      pendingRequests[id].Fail(err);
    }
  }

  ghost predicate AllFailed(before: seq<S.AsyncResult>, refs: set<S.Ref>, err: Option<S.CallError>, after: seq<S.AsyncResult>) {
    && |after| == |before|
    && forall m :: 0 <= m < |before| ==>
                     after[m] == if m in refs then before[m].(error := err, done := S.Closed) else before[m]
  }

  /** What `s` becomes when everything pending on its connection `k` has been torn down. */
  ghost predicate Torn(s: S.Client, k: nat, refs: set<S.Ref>, err: Option<S.CallError>, t: S.Client)
    requires k < |s.conns|
  {
    && AllFailed(s.heap, refs, err, t.heap)
    && t == s.(heap := t.heap, conns := s.conns[k := s.conns[k].(pending := map[])],
               count := Lowered(s.count, |s.conns[k].pending|))
  }

  lemma TornOn(s: S.Client, h: Safety.Hist, k: nat, id: uint32, err: Option<S.CallError>, u: S.Client)
    requires Safety.Inv(s, h) && S.Enabled(s, S.TeardownOne(k, id, err))
    requires Torn(S.DoTeardown(s, k, id, err), k, (s.conns[k].pending - {id}).Values, err, u)
    ensures Torn(s, k, s.conns[k].pending.Values, err, u)
  {
    var t, pending := S.DoTeardown(s, k, id, err), s.conns[k].pending;
    Safety.PendingIsAlone(s, h, k, id);
    Safety.PendingShrinks(pending, id);
    LoweredFirst(s.count, |pending|);
    assert t.count == Lowered(s.count, 1);
    assert t.conns[k].pending == pending - {id};
    assert t.conns[k := t.conns[k].(pending := map[])] == s.conns[k := s.conns[k].(pending := map[])];
    forall m | m in pending.Values
      ensures m in (pending - {id}).Values <==> m != pending[id]
    {
      var id' :| id' in pending && pending[id'] == m;
      if id' != id {
        assert (pending - {id})[id'] == m;
      }
    }
  }

  lemma {:induction false} TornDown(s0: S.Client, run: seq<S.Step>, s: S.Client, h: Safety.Hist, k: nat, err: Option<S.CallError>)
    returns (run': seq<S.Step>, h': Safety.Hist)
    requires Runs.Legal(s0, run) && Runs.After(s0, run) == s && Safety.Inv(s, h)
    requires k < |s.conns| && s.conns[k].writer.Stopped? && s.conns[k].readerDone
    ensures Runs.Legal(s0, run') && Safety.Inv(Runs.After(s0, run'), h')
    ensures Torn(s, k, s.conns[k].pending.Values, err, Runs.After(s0, run'))
    decreases |s.conns[k].pending|
  {
    var pending := s.conns[k].pending;
    if pending == map[] {
      run', h' := run, h;
      assert s.conns[k := s.conns[k].(pending := map[])] == s.conns;
    } else {
      var id :| id in pending;
      Safety.PendingIsAlone(s, h, k, id);
      var run1, h1 := Advance(s0, run, s, h, S.TeardownOne(k, id, err));
      Safety.PendingShrinks(pending, id);
      run', h' := TornDown(s0, run1, S.DoTeardown(s, k, id, err), h1, k, err);
      TornOn(s, h, k, id, err, Runs.After(s0, run'));
    }
  }

  class Client {
    const codec: Codec
    const PendingRequests: nat
    var requestsChan: seq<AsyncResult>
    var pool: seq<AsyncResult>
    var pendingRequestsCount: uint32
    var panicked: bool
    ghost var results: seq<AsyncResult>
    ghost var conns: seq<Connection>
    ghost var model: S.Client

    ghost predicate Owns(m: AsyncResult)
      reads `results
    {
      m.ref < |results| && results[m.ref] == m
    }

    ghost predicate Holds()
      reads `results, `model, results
    {
      && |results| == |model.heap|
      && forall i :: 0 <= i < |results| ==> results[i].ref == i && results[i].Cell() == model.heap[i]
    }

    ghost predicate Files()
      reads `results, `conns, `model, conns
    {
      && |conns| == |model.conns|
      && (forall k :: 0 <= k < |conns| ==> conns[k].k == k && RefMap(conns[k].pendingRequests) == model.conns[k].pending)
      && (forall k, id :: 0 <= k < |conns| && id in conns[k].pendingRequests ==> Owns(conns[k].pendingRequests[id]))
    }

    ghost predicate Lists()
      reads `results, `model, `requestsChan, `pool
    {
      && (Refs(requestsChan), multiset(Refs(pool))) == (model.queue, model.pool)
      && (forall m <- requestsChan + pool :: Owns(m))
    }

    ghost predicate Valid()
      reads this, results, conns
    {
      && (codec, PendingRequests, pendingRequestsCount, panicked) == (model.codec, model.pendingRequests, model.count, model.panicked)
      && Holds() && Files() && Lists()
    }

    constructor (codec: Codec, pendingRequests: nat)
      ensures Valid() && model == S.Start(codec, pendingRequests) && results == [] && conns == []
    {
      this.codec, PendingRequests := codec, pendingRequests;
      requestsChan, pool, pendingRequestsCount, panicked := [], [], 0, false;
      results, conns, model := [], [], S.Start(codec, pendingRequests);
    }

    /** The goroutine of a call, or the writer of a connection, gets to its next point. */
    ghost method MoveCall(c: nat, phase: S.Phase)
      requires Valid() && c < |model.calls|
      modifies this`model
      ensures Valid() && model == S.SetCall(old(model), c, phase)
    {
      model := S.SetCall(model, c, phase);
    }

    ghost method MoveWriter(k: nat, w: S.Writer)
      requires Valid() && k < |model.conns|
      modifies this`model
      ensures Valid() && model == S.SetWriter(old(model), k, w)
    {
      model := S.SetWriter(model, k, w);
    }

    /** `close(m.Done)`. */
    method CloseDone(m: AsyncResult)
      requires Valid() && Owns(m)
      modifies this`panicked, this`model, m`Done
      ensures Valid() && model == S.CloseDone(old(model), m.ref)
      ensures if old(m.Done).Open? then m.Done.Closed? && panicked == old(panicked) else panicked
    {
      model := S.CloseDone(model, m.ref);
      if m.Done.Open? {
        m.Done := S.Closed;
      } else {
        panicked := true;
      }
    }

    method FinishWith(m: AsyncResult, err: Option<S.CallError>)
      requires Valid() && Owns(m)
      modifies this`panicked, this`model, m`Done, m`Error
      ensures Valid() && model == S.FinishWith(old(model), m.ref, err)
      ensures m.Error == err && (old(m.Done).Open? ==> m.Done.Closed? && panicked == old(panicked))
    {
      m.Error := err;
      model := model.(heap := model.heap[m.ref := m.Cell()]);
      CloseDone(m);
    }

    /** `releaseAsyncResult`. */
    method Release(m: AsyncResult)
      requires Valid() && Owns(m)
      modifies this`pool, this`model, m
      ensures Valid() && model == S.Release(old(model), m.ref)
      ensures pool == old(pool) + [m]
      ensures m.Request == None && m.Response == None && m.Error == None && m.Done.NoChan? && m.canceled == old(m.canceled)
    {
      m.Clear();
      RefsPush(pool, m);
      pool := pool + [m];
      model := S.Release(model, m.ref);
    }

    // ----- callAsync, cut where another goroutine can act

    method FromPool() returns (m: AsyncResult)
      requires Valid() && pool != []
      modifies this`pool, this`model
      ensures Valid() && Owns(m) && m in old(pool)
      ensures m.ref in old(model.pool) && model == old(model).(pool := old(model.pool) - multiset{m.ref})
    {
      var i: nat :| i < |pool|;
      m := pool[i];
      RefsPop(pool, i);
      assert Refs(pool)[i] == m.ref;
      pool := pool[..i] + pool[i + 1..];
      model := model.(pool := model.pool - multiset{m.ref});
    }

    method NewResult() returns (m: AsyncResult)
      requires Valid()
      modifies this`results, this`model
      ensures Valid() && fresh(m) && m.ref == |old(results)| && results == old(results) + [m]
      ensures model == old(model).(heap := old(model.heap) + [S.AsyncResult(None, None, None, S.NoChan, false, false)])
    {
      m := new AsyncResult(|results|);
      results := results + [m];
      model := model.(heap := model.heap + [m.Cell()]);
    }

    /** The state once a result has been taken from the pool or made, and before it is filled in. */
    ghost predicate Got(before: S.Client, m: S.Ref)
      reads `model
    {
      model == if m < |before.heap| then before.(pool := before.pool - multiset{m})
               else before.(heap := before.heap + [S.AsyncResult(None, None, None, S.NoChan, false, false)])
    }

    method Fill(ghost before: S.Client, ghost c: nat, m: AsyncResult, req: Packet, skipResponse: bool)
      requires Valid() && Owns(m) && S.Enabled(before, S.Acquire(c, m.ref)) && Got(before, m.ref)
      requires before.calls[c].request == req && before.calls[c].mode.OneWay? == skipResponse
      modifies this`model, m
      ensures Valid() && model == S.DoAcquire(before, c, m.ref)
      ensures m.Request == Some(req) && m.skipResponse == skipResponse && (skipResponse || m.Done.Open?)
    {
      m.Prepare(req, skipResponse);
      model := S.SetCall(model.(heap := model.heap[m.ref := m.Cell()]), c, S.Sending(m.ref));
    }

    method Acquire(ghost c: nat, req: Packet, skipResponse: bool, usePool: bool) returns (m: AsyncResult)
      requires Valid() && !panicked && S.CallAt(model, c) && model.calls[c].phase.Ready?
      requires var call := model.calls[c];
               call.request == req && call.mode.OneWay? == skipResponse && S.UsePool(call.mode) == usePool
      modifies this`pool, this`results, this`model, pool
      ensures Valid() && Owns(m) && (m in old(pool) || fresh(m))
      ensures S.Enabled(old(model), S.Acquire(c, m.ref)) && model == S.DoAcquire(old(model), c, m.ref)
      ensures results == old(results) || results == old(results) + [m]
      ensures usePool || fresh(m)
      ensures m.Request == Some(req) && m.skipResponse == skipResponse && (skipResponse || m.Done.Open?)
    {
      var hit: bool := *;
      if usePool && pool != [] && hit {
        m := FromPool();
      } else {
        m := NewResult();
      }
      Fill(old(model), c, m, req, skipResponse);
    }

    lemma SameLength()
      requires Valid()
      ensures |requestsChan| == |model.queue|
    {
    }

    /** `c.requestsChan <- m`, which has room. */
    method Enqueue(m: AsyncResult)
      requires Valid() && Owns(m)
      modifies this`requestsChan, this`model
      ensures Valid() && model == old(model).(queue := old(model.queue) + [m.ref])
      ensures requestsChan == old(requestsChan) + [m]
    {
      RefsPush(requestsChan, m);
      requestsChan := requestsChan + [m];
      model := model.(queue := model.queue + [m.ref]);
    }

    method TrySend(ghost c: nat, m: AsyncResult, skipResponse: bool) returns (sent: bool)
      requires Valid() && !panicked && Owns(m) && c < |model.calls| && model.calls[c].phase == S.Sending(m.ref)
      requires model.calls[c].mode.OneWay? == skipResponse
      modifies this`requestsChan, this`pool, this`model, m
      ensures Valid() && S.Enabled(old(model), S.TrySend(c)) && model == S.DoTrySend(old(model), c)
      ensures sent == (|old(requestsChan)| < PendingRequests)
      ensures requestsChan == if sent then old(requestsChan) + [m] else old(requestsChan)
      ensures c < |model.calls| && model.calls[c].mode == old(model.calls[c].mode)
      ensures pool == if !sent && skipResponse then old(pool) + [m] else old(pool)
      ensures sent || !skipResponse ==> m.Cell() == old(m.Cell())
    {
      hide Files, Lists;
      SameLength();
      sent := |requestsChan| < PendingRequests;
      if sent {
        Enqueue(m);
      } else if skipResponse {
        Release(m);
      }
      MoveCall(c, if sent then S.AfterSend(model.calls[c].mode, m.ref)
                  else if skipResponse then S.Finished(S.Failed(S.TimeOut)) else S.Evicting(m.ref));
    }

    /** `<-c.requestsChan`, known to be non-empty. */
    method Dequeue() returns (m: AsyncResult)
      requires Valid() && requestsChan != []
      modifies this`requestsChan, this`model
      ensures Valid() && model == old(model).(queue := old(model.queue)[1..])
      ensures m == old(requestsChan)[0] && requestsChan == old(requestsChan)[1..]
      ensures Owns(m) && m.ref == old(model.queue)[0]
    {
      m := requestsChan[0];
      RefsPop(requestsChan, 0);
      assert requestsChan[..0] + requestsChan[1..] == requestsChan[1..];
      assert Refs(requestsChan)[..0] + Refs(requestsChan)[1..] == Refs(requestsChan)[1..];
      requestsChan := requestsChan[1..];
      model := model.(queue := model.queue[1..]);
    }

    /** A result that was dropped is completed with the error, or given back if nobody can be waiting for it. */
    ghost predicate LetDown(mm: AsyncResult, was: S.Done, err: S.CallError, usePool: bool, pool0: seq<AsyncResult>)
      reads this`pool, mm
    {
      && (was.Open? ==> mm.Error == Some(err) && mm.Done.Closed?)
      && pool == if was.NoChan? && usePool then pool0 + [mm] else pool0
    }

    /** A result nobody will answer: its caller is told, or it is given back. */
    method GiveUpOn(mm: AsyncResult, err: S.CallError, usePool: bool)
      requires Valid() && Owns(mm)
      modifies this`pool, this`panicked, this`model, mm
      ensures Valid() && model == GivenUp(old(model), mm.ref, err, usePool)
      ensures LetDown(mm, old(mm.Done), err, usePool, old(pool))
    {
      if !mm.Done.NoChan? {
        FinishWith(mm, Some(err));
      } else if usePool {
        Release(mm);
      }
    }

    method EvictOldest(ghost c: nat, usePool: bool)
      requires Valid() && !panicked && c < |model.calls| && model.calls[c].phase.Evicting? && model.calls[c].phase.m < |model.heap|
      requires S.UsePool(model.calls[c].mode) == usePool
      modifies this`requestsChan, this`pool, this`panicked, this`model, requestsChan
      ensures Valid() && S.Enabled(old(model), S.EvictOldest(c)) && model == S.DoEvict(old(model), c)
      ensures requestsChan == if old(requestsChan) == [] then [] else old(requestsChan)[1..]
      ensures old(requestsChan) == [] ==> pool == old(pool)
      ensures c < |model.calls| && model.calls[c].mode == old(model.calls[c].mode)
      ensures model.calls[c].phase == S.Resending(old(model.calls[c].phase.m)) && |model.heap| == |old(model.heap)|
      ensures old(requestsChan) != [] ==> var mm := old(requestsChan)[0]; LetDown(mm, old(mm.Done), S.Overflow, usePool, old(pool))
    {
      if requestsChan != [] {
        var mm := Dequeue();
        GiveUpOn(mm, S.Overflow, usePool);
      }
      MoveCall(c, S.Resending(model.calls[c].phase.m));
    }

    method Resend(ghost c: nat, m: AsyncResult, usePool: bool) returns (sent: bool)
      requires Valid() && !panicked && Owns(m) && c < |model.calls| && model.calls[c].phase == S.Resending(m.ref)
      requires S.UsePool(model.calls[c].mode) == usePool
      modifies this`requestsChan, this`pool, this`model, m
      ensures Valid() && S.Enabled(old(model), S.Resend(c)) && model == S.DoResend(old(model), c)
      ensures sent == (|old(requestsChan)| < PendingRequests)
      ensures requestsChan == if sent then old(requestsChan) + [m] else old(requestsChan)
      ensures pool == if !sent && usePool then old(pool) + [m] else old(pool)
      ensures sent || !usePool ==> m.Cell() == old(m.Cell())
      ensures sent && !old(model.calls[c].mode).OneWay? ==> Sent(c, m.ref, false, usePool)
      ensures !sent ==> c < |model.calls| && model.calls[c].phase == S.Finished(S.Failed(S.Overflow))
    {
      hide Files, Lists;
      SameLength();
      sent := |requestsChan| < PendingRequests;
      if sent {
        Enqueue(m);
      } else if usePool {
        Release(m);
      }
      MoveCall(c, if sent then S.AfterSend(model.calls[c].mode, m.ref) else S.Finished(S.Failed(S.Overflow)));
    }

    /** A call whose result is queued has been sent, waits for it, or has been handed it. */
    ghost predicate Sent(c: nat, m: S.Ref, skipResponse: bool, usePool: bool)
      reads `model
    {
      && c < |model.calls|
      && model.calls[c].phase == if skipResponse then S.Finished(S.Sent) else if usePool then S.Waiting(m) else S.Handed(m)
    }

    method Offer(ghost c: nat, req: Packet, skipResponse: bool, usePool: bool) returns (m: AsyncResult, sent: bool)
      requires Valid() && !panicked && S.CallAt(model, c) && model.calls[c].phase.Ready?
      requires var call := model.calls[c];
               call.request == req && call.mode.OneWay? == skipResponse && S.UsePool(call.mode) == usePool
      modifies this`requestsChan, this`pool, this`results, this`model, pool
      ensures Valid() && Owns(m) && (m in old(pool) || fresh(m))
      ensures S.Enabled(old(model), S.Acquire(c, m.ref))
      ensures S.Enabled(S.DoAcquire(old(model), c, m.ref), S.TrySend(c))
      ensures model == S.DoTrySend(S.DoAcquire(old(model), c, m.ref), c)
      ensures sent == (|old(requestsChan)| < PendingRequests)
      ensures requestsChan == if sent then old(requestsChan) + [m] else old(requestsChan)
      ensures c < |model.calls| && model.calls[c].mode == old(model.calls[c].mode)
      ensures !sent && !skipResponse ==> model.calls[c].phase == S.Evicting(m.ref)
      ensures sent || !skipResponse ==> m.Request == Some(req) && m.skipResponse == skipResponse && (skipResponse || m.Done.Open?)
      ensures sent ==> Sent(c, m.ref, skipResponse, usePool)
      ensures !sent && skipResponse ==> model.calls[c].phase == S.Finished(S.Failed(S.TimeOut))
    {
      m := Acquire(c, req, skipResponse, usePool);
      sent := TrySend(c, m, skipResponse);
    }

    method Replace(ghost c: nat, m: AsyncResult, usePool: bool) returns (sent: bool)
      requires Valid() && S.Enabled(model, S.EvictOldest(c)) && Owns(m) && model.calls[c].phase == S.Evicting(m.ref)
      requires S.UsePool(model.calls[c].mode) == usePool
      requires !S.DoEvict(model, c).panicked && !model.calls[c].mode.OneWay? && m !in requestsChan
      modifies this`requestsChan, this`pool, this`panicked, this`model, requestsChan, m
      ensures Valid() && S.Enabled(S.DoEvict(old(model), c), S.Resend(c))
      ensures model == S.DoResend(S.DoEvict(old(model), c), c)
      ensures var rest := if old(requestsChan) == [] then [] else old(requestsChan)[1..];
              sent == (|rest| < PendingRequests) && requestsChan == if sent then rest + [m] else rest
      ensures sent ==> Sent(c, m.ref, false, usePool)
      ensures c < |model.calls| && (!sent ==> model.calls[c].phase == S.Finished(S.Failed(S.Overflow)))
      ensures sent ==> m.Cell() == old(m.Cell())
    {
      InHeap(m);
      hide Holds, Files, Lists, S.DoEvict, S.DoResend, Sent, LetDown;
      EvictOldest(c, usePool);
      assert S.Enabled(model, S.Resend(c));
      sent := Resend(c, m, usePool);
    }

    lemma InHeap(m: AsyncResult)
      requires Valid() && Owns(m)
      ensures m.ref < |model.heap|
    {
    }

    /** What a caller is about to queue is not queued yet. */
    lemma NotQueuedYet(h: Safety.Hist, c: nat, m: AsyncResult)
      requires Valid() && Safety.Inv(model, h) && c < |model.calls| && model.calls[c].phase == S.Evicting(m.ref)
      ensures m !in requestsChan
    {
      assert Safety.CallOk(model, h, c);
      forall i | 0 <= i < |requestsChan|
        ensures requestsChan[i] != m
      {
        assert Safety.At(model, h, model.queue[i], Safety.Queued);
      }
    }

    /** The first half of `callAsync`, with nobody in between: a result is filled and offered to the queue. */
    method OfferFirst(ghost h: Safety.Hist, ghost c: nat, req: Packet, skipResponse: bool, usePool: bool)
      returns (m: AsyncResult, sent: bool, ghost run: seq<S.Step>, ghost h': Safety.Hist)
      requires Valid() && Safety.Inv(model, h) && S.CallAt(model, c) && model.calls[c].phase.Ready?
      requires var call := model.calls[c];
               call.request == req && call.mode.OneWay? == skipResponse && S.UsePool(call.mode) == usePool
      modifies this`requestsChan, this`pool, this`results, this`model, pool
      ensures Valid() && Owns(m) && (m in old(pool) || fresh(m)) && Safety.Inv(model, h')
      ensures Runs.Legal(old(model), run) && model == Runs.After(old(model), run)
      ensures sent == (|old(requestsChan)| < PendingRequests)
      ensures requestsChan == if sent then old(requestsChan) + [m] else old(requestsChan)
      ensures c < |model.calls| && model.calls[c].mode == old(model.calls[c].mode)
      ensures sent || !skipResponse ==> m.Request == Some(req) && m.skipResponse == skipResponse && (skipResponse || m.Done.Open?)
      ensures sent ==> Sent(c, m.ref, skipResponse, usePool)
      ensures !sent && skipResponse ==> model.calls[c].phase == S.Finished(S.Failed(S.TimeOut))
      ensures !sent && !skipResponse ==> model.calls[c].phase == S.Evicting(m.ref)
    {
      assert !panicked;
      hide Holds, Files, Lists, Safety.Inv, Sent;
      ghost var s := model;
      m, sent := Offer(c, req, skipResponse, usePool);
      run, h' := AdvanceTwice(s, [], s, h, S.Acquire(c, m.ref), S.TrySend(c));
    }

    /** The second half: the oldest entry makes room. */
    method ReplaceOldest(ghost s0: S.Client, ghost before: seq<S.Step>, ghost h: Safety.Hist, ghost c: nat, m: AsyncResult, usePool: bool)
      returns (sent: bool, ghost run: seq<S.Step>, ghost h': Safety.Hist)
      requires Valid() && Safety.Inv(model, h) && Runs.Legal(s0, before) && model == Runs.After(s0, before)
      requires Owns(m) && c < |model.calls| && model.calls[c].phase == S.Evicting(m.ref)
      requires S.UsePool(model.calls[c].mode) == usePool && !model.calls[c].mode.OneWay?
      modifies this`requestsChan, this`pool, this`panicked, this`model, requestsChan, m
      ensures Valid() && Safety.Inv(model, h') && Runs.Legal(s0, run) && model == Runs.After(s0, run)
      ensures |old(requestsChan)| <= PendingRequests
      ensures var rest := if old(requestsChan) == [] then [] else old(requestsChan)[1..];
              sent == (|rest| < PendingRequests) && requestsChan == if sent then rest + [m] else rest
      ensures sent ==> Sent(c, m.ref, false, usePool) && m.Cell() == old(m.Cell())
      ensures !sent ==> c < |model.calls| && model.calls[c].phase == S.Finished(S.Failed(S.Overflow))
    {
      ghost var s := model;
      EvictIsSafe(s, h, c);
      NotQueuedYet(h, c, m);
      hide Holds, Files, Safety.Inv, Sent;
      sent := Replace(c, m, usePool);
      run, h' := AdvanceTwice(s0, before, s, h, S.EvictOldest(c), S.Resend(c));
    }

    /**
     `callAsync` with nobody in between: it fails only when the queue is full and may not be, or cannot be, made
     room in; otherwise its result is the newest entry of the queue, in place of the oldest if there was no room.
     */
    method CallAsync(ghost h: Safety.Hist, ghost c: nat, req: Packet, skipResponse: bool, usePool: bool)
      returns (m: AsyncResult, err: Option<S.CallError>, ghost run: seq<S.Step>, ghost h': Safety.Hist)
      requires Valid() && Safety.Inv(model, h) && S.CallAt(model, c) && model.calls[c].phase.Ready?
      requires var call := model.calls[c];
               call.request == req && call.mode.OneWay? == skipResponse && S.UsePool(call.mode) == usePool
      modifies this`requestsChan, this`pool, this`panicked, this`results, this`model, requestsChan, pool
      ensures Valid() && Safety.Inv(model, h')
      ensures Runs.Legal(old(model), run) && model == Runs.After(old(model), run)
      ensures var room := |old(requestsChan)| < PendingRequests;
              && (err.None? <==> room || (!skipResponse && PendingRequests > 0))
              && (err.Some? ==> err == Some(if skipResponse then S.TimeOut else S.Overflow))
              && (err.None? ==> requestsChan == (if room then old(requestsChan) else old(requestsChan)[1..]) + [m])
      ensures err.None? ==> m.Request == Some(req) && m.skipResponse == skipResponse && (skipResponse || m.Done.Open?)
      ensures err.None? ==> Sent(c, m.ref, skipResponse, usePool)
      ensures err.Some? ==> c < |model.calls| && model.calls[c].phase == S.Finished(S.Failed(err.value))
    {
      hide Holds, Files, Lists, Safety.Inv, Runs.Legal, Runs.After, Sent;
      var sent: bool;
      m, sent, run, h' := OfferFirst(h, c, req, skipResponse, usePool);
      if sent {
        return m, None, run, h';
      }
      if skipResponse {
        return m, Some(S.TimeOut), run, h';
      }
      sent, run, h' := ReplaceOldest(old(model), run, h', c, m, usePool);
      err := if sent then None else Some(S.Overflow);
    }

    // ----- CallTimeout, once it holds its result

    /** `<-m.Done` came first. */
    method Complete(ghost c: nat, m: AsyncResult) returns (rsp: Option<Packet>, err: Option<S.CallError>)
      requires Valid() && !panicked && Owns(m) && c < |model.calls| && model.calls[c].phase == S.Waiting(m.ref) && m.Done.Closed?
      modifies this`pool, this`model, m
      ensures Valid() && S.Enabled(old(model), S.Complete(c)) && model == S.DoComplete(old(model), c)
      ensures rsp == old(m.Response) && err == old(m.Error)
      ensures model.calls[c].phase == S.Finished(if err.None? then S.Reply(rsp) else S.Failed(err.value))
      ensures pool == old(pool) + [m] && m.Request == None && m.Response == None && m.Error == None && m.Done.NoChan?
    {
      rsp, err := m.Response, m.Error;
      Release(m);
      model := S.DoComplete(old(model), c);
    }

    /** The timer came first: cancel, and say whether to try again. */
    method Expire(ghost c: nat, m: AsyncResult, tryNum: nat, retryNum: nat) returns (again: bool, tries: nat)
      requires Valid() && !panicked && Owns(m) && c < |model.calls| && model.calls[c].phase == S.Waiting(m.ref)
      requires model.calls[c].tryNum == tryNum && model.calls[c].mode == S.Sync(retryNum)
      modifies this`model, m`canceled
      ensures Valid() && S.Enabled(old(model), S.Expire(c)) && model == S.DoExpire(old(model), c)
      ensures tries == tryNum + 1 && (again <==> tryNum < retryNum) && m.canceled
      ensures model.calls[c].tryNum == tries
      ensures model.calls[c].phase == if again then S.Ready else S.Finished(S.Failed(S.TimeOut))
    {
      m.canceled := true;
      tries := tryNum + 1;
      again := tries <= retryNum;
      model := S.DoExpire(model, c);
    }

    // ----- a connection's writer

    method Connect() returns (conn: Connection)
      requires Valid() && !panicked
      modifies this`conns, this`model
      ensures Valid() && model == S.Apply(old(model), S.Connect)
      ensures fresh(conn) && conns == old(conns) + [conn]
    {
      conn := new Connection(|conns|);
      assert RefMap(conn.pendingRequests) == map[];
      conns := conns + [conn];
      model := S.Apply(model, S.Connect);
    }

    method Take(ghost k: nat) returns (m: AsyncResult)
      requires Valid() && !panicked && k < |model.conns| && model.conns[k].writer.Idle? && requestsChan != []
      modifies this`requestsChan, this`model
      ensures Valid() && S.Enabled(old(model), S.WriterTake(k)) && model == S.DoTake(old(model), k)
      ensures Owns(m) && model.conns[k].writer == S.Took(m.ref)
      ensures old(requestsChan) == [m] + requestsChan
    {
      assert Owns(requestsChan[0]);
      m := Dequeue();
      MoveWriter(k, S.Took(m.ref));
    }

    method CheckCanceled(ghost k: nat, m: AsyncResult) returns (drop: bool)
      requires Valid() && !panicked && Owns(m) && k < |model.conns| && model.conns[k].writer == S.Took(m.ref)
      modifies this`pool, this`panicked, this`model, m
      ensures Valid() && S.Enabled(old(model), S.WriterCheck(k)) && model == S.DoCheck(old(model), k)
      ensures drop == old(m.canceled)
      ensures drop ==> LetDown(m, old(m.Done), S.Canceled, true, old(pool))
      ensures !drop ==> pool == old(pool) && m.Cell() == old(m.Cell())
      ensures model.conns[k].writer == if drop then S.Idle else if m.skipResponse then S.Encoding(m.ref) else S.Filing(m.ref)
    {
      drop := m.canceled;
      if drop {
        GiveUpOn(m, S.Canceled, true);
      }
      MoveWriter(k, if drop then S.Idle else if m.skipResponse then S.Encoding(m.ref) else S.Filing(m.ref));
    }

    /** An update of the map the goroutines of a connection share, and of the counter. */
    method SetPending(ghost k: nat, conn: Connection, pending: map<uint32, AsyncResult>, count: uint32, ghost w: S.Writer)
      requires Valid() && k < |conns| && conn == conns[k]
      requires forall id :: id in pending ==> Owns(pending[id])
      modifies this`pendingRequestsCount, this`model, conn
      ensures Valid() && conn.pendingRequests == pending
      ensures model == S.SetConn(old(model), k, old(model.conns[k]).(pending := RefMap(pending), writer := w)).(count := count)
    {
      conn.pendingRequests := pending;
      pendingRequestsCount := count;
      model := S.SetConn(model, k, model.conns[k].(pending := RefMap(pending), writer := w)).(count := count);
    }

    /** `delete(pendingRequests, msgID)` and the counter. */
    method Unfile(ghost k: nat, conn: Connection, id: uint32)
      requires Valid() && k < |conns| && conn == conns[k] && id in conn.pendingRequests
      modifies this`pendingRequestsCount, this`model, conn
      ensures Valid()
      ensures conn.pendingRequests == old(conn.pendingRequests) - {id} && pendingRequestsCount == U32(old(pendingRequestsCount) - 1)
      ensures model == Unfiled(old(model), k, id)
    {
      assert RefMap(conn.pendingRequests - {id}) == RefMap(conn.pendingRequests) - {id};
      SetPending(k, conn, conn.pendingRequests - {id}, U32(pendingRequestsCount - 1), model.conns[k].writer);
    }

    method File(ghost k: nat, conn: Connection, m: AsyncResult) returns (over: bool)
      requires Valid() && !panicked && Owns(m) && k < |model.conns| && model.conns[k].writer == S.Filing(m.ref)
      requires conn == conns[k] && m.Request.Some?
      modifies this`pendingRequestsCount, this`model, conn
      ensures Valid() && S.Enabled(old(model), S.WriterFile(k)) && model == S.DoFile(old(model), k)
      ensures conn.pendingRequests == old(conn.pendingRequests)[m.Request.value.ID() := m]
      ensures pendingRequestsCount == U32(old(pendingRequestsCount) + 1)
      ensures over <==> |old(conn.pendingRequests)| > 3 * PendingRequests
      ensures model.conns[k].writer == if over then S.Filed(m.ref, m.Request.value.ID()) else S.Encoding(m.ref)
    {
      hide Holds, S.DoFile;
      var msgID := m.Request.value.ID();
      FileIs(k, conn, m);
      over := |conn.pendingRequests| > 3 * PendingRequests;
      SetPending(k, conn, conn.pendingRequests[msgID := m], U32(pendingRequestsCount + 1),
                 if over then S.Filed(m.ref, msgID) else S.Encoding(m.ref));
    }

    lemma FileIs(k: nat, conn: Connection, m: AsyncResult)
      requires Valid() && !panicked && Owns(m) && k < |model.conns| && model.conns[k].writer == S.Filing(m.ref)
      requires conn == conns[k] && m.Request.Some?
      ensures S.Enabled(model, S.WriterFile(k))
      ensures var id, over := m.Request.value.ID(), |conn.pendingRequests| > 3 * PendingRequests;
              S.DoFile(model, k)
              == S.SetConn(model, k, model.conns[k].(pending := RefMap(conn.pendingRequests[id := m]),
                                                     writer := if over then S.Filed(m.ref, id) else S.Encoding(m.ref)))
                  .(count := U32(pendingRequestsCount + 1))
    {
      var id := m.Request.value.ID();
      SameSize(conn.pendingRequests);
      assert RefMap(conn.pendingRequests[id := m]) == RefMap(conn.pendingRequests)[id := m.ref];
      assert m.Cell() == model.heap[m.ref];
    }

    method Recount(ghost k: nat, conn: Connection) returns (tooMany: bool)
      requires Valid() && !panicked && k < |model.conns| && model.conns[k].writer.Swept? && conn == conns[k]
      modifies this`model
      ensures Valid() && S.Enabled(old(model), S.WriterRecount(k)) && model == S.DoRecount(old(model), k)
      ensures tooMany <==> |conn.pendingRequests| > 3 * PendingRequests
      ensures model.conns[k].writer == if tooMany then S.Stopped else S.Encoding(old(model.conns[k].writer.m))
    {
      SameSize(conn.pendingRequests);
      tooMany := |conn.pendingRequests| > 3 * PendingRequests;
      model := S.DoRecount(model, k);
    }

    lemma EncodeIs(k: nat, m: AsyncResult)
      requires Valid() && !panicked && Owns(m) && k < |model.conns| && model.conns[k].writer == S.Encoding(m.ref)
      ensures S.Enabled(model, S.WriterEncode(k))
      ensures var ok := m.Request.Some? && Encodable(model.codec, m.Request.value);
              S.DoEncode(model, k) == S.SetWriter(model, k, if ok then S.Idle else S.Stopped)
    {
      assert m.Cell() == model.heap[m.ref];
    }

    /** `enc.Encode(m.Request)`: the bytes of whatever request the result holds by now; without one the writer ends. */
    method Encode(ghost k: nat, m: AsyncResult, codec: Codec, bw: BufWriter) returns (ok: bool)
      requires Valid() && !panicked && Owns(m) && k < |model.conns| && model.conns[k].writer == S.Encoding(m.ref) && codec == model.codec
      modifies this`model, bw
      ensures Valid() && S.Enabled(old(model), S.WriterEncode(k)) && model == S.DoEncode(old(model), k)
      ensures model.conns[k].writer == if ok then S.Idle else S.Stopped
      ensures ok <==> m.Request.Some? && Encodable(codec, m.Request.value)
      ensures bw.data == old(bw.data) + if ok then Wire(m.Request.value) else []
    {
      hide Holds, Files, Lists, S.DoEncode, Wire, LaidOut;
      EncodeIs(k, m);
      ok := false;
      if m.Request.Some? {
        if codec.RpcCodec? {
          ok := EncodeRpc(bw, m.Request.value);
        } else {
          ok := EncodeDog(bw, m.Request.value);
        }
      }
      MoveWriter(k, if ok then S.Idle else S.Stopped);
    }

    // ----- a connection's reader

    method Deliver(ghost k: nat, conn: Connection, packet: Packet) returns (known: bool)
      requires Valid() && !panicked && k < |model.conns| && !model.conns[k].readerDone && conn == conns[k]
      modifies this`pendingRequestsCount, this`panicked, this`model, conn, conn.pendingRequests.Values
      ensures Valid() && S.Enabled(old(model), S.ReaderDeliver(k, packet)) && model == S.DoDeliver(old(model), k, packet)
      ensures known == (packet.ID() in old(conn.pendingRequests))
      ensures conn.pendingRequests == old(conn.pendingRequests) - {packet.ID()}
      ensures pendingRequestsCount == if known then U32(old(pendingRequestsCount) - 1) else old(pendingRequestsCount)
      ensures known ==> var m := old(conn.pendingRequests)[packet.ID()];
                        m.Response == Some(packet) && (old(m.Done).Open? ==> m.Done.Closed?) && m.Error == old(m.Error)
    {
      hide Holds, Lists, S.SetConn, S.CloseDone, Unfiled, Answered;
      var msgID := packet.ID();
      known := msgID in conn.pendingRequests;
      if known {
        var m := conn.pendingRequests[msgID];
        DeliverIs(k, conn, packet);
        Unfile(k, conn, msgID);
        Answer(m, packet);
      }
    }

    lemma DeliverIs(k: nat, conn: Connection, packet: Packet)
      requires Valid() && !panicked && k < |model.conns| && !model.conns[k].readerDone && conn == conns[k]
      requires packet.ID() in conn.pendingRequests
      ensures S.Enabled(model, S.ReaderDeliver(k, packet))
      ensures var m := conn.pendingRequests[packet.ID()].ref;
              m < |model.heap| && S.DoDeliver(model, k, packet) == Answered(Unfiled(model, k, packet.ID()), m, packet)
    {
      assert RefMap(conn.pendingRequests)[packet.ID()] == conn.pendingRequests[packet.ID()].ref;
    }

    method Answer(m: AsyncResult, packet: Packet)
      requires Valid() && Owns(m)
      modifies this`panicked, this`model, m
      ensures Valid() && model == Answered(old(model), m.ref, packet)
      ensures m.Response == Some(packet) && (old(m.Done).Open? ==> m.Done.Closed?) && m.Error == old(m.Error)
    {
      m.Response := Some(packet);
      model := model.(heap := model.heap[m.ref := m.Cell()]);
      CloseDone(m);
    }

    // ----- the two loops over the shared map

    method Sweep(ghost k: nat, conn: Connection, msgID: uint32) returns (ghost unvisited: bool)
      requires Valid() && k < |conns| && conn == conns[k] && !panicked
      requires model.conns[k].writer.Filed? && model.conns[k].writer.id == msgID
      modifies this`pendingRequestsCount, this`model, conn
      ensures Valid()
      ensures S.Enabled(old(model), S.WriterSweep(k, unvisited)) && model == S.DoSweep(old(model), k, unvisited)
      ensures conn.pendingRequests == if old(Canceled(conn.pendingRequests)) != {} then old(conn.pendingRequests) - {msgID}
                                      else old(conn.pendingRequests)
      ensures pendingRequestsCount == Lowered(old(pendingRequestsCount), |old(conn.pendingRequests)| - if unvisited then 1 else 0)
    {
      hide Lowered, Canceled, Holds, Lists, S.DoSweep, S.SetConn, S.Enabled, RefMap;
      var pending, count;
      ghost var walked;
      pending, count, unvisited, walked := Walk(conn.pendingRequests, pendingRequestsCount, msgID);
      SweepIs(k, conn, pending, unvisited, walked);
      SetPending(k, conn, pending, count, S.Swept(model.conns[k].writer.m));
    }

    lemma SweepIs(k: nat, conn: Connection, pending: map<uint32, AsyncResult>, unvisited: bool, walked: nat)
      requires Valid() && k < |conns| && conn == conns[k] && !panicked && model.conns[k].writer.Filed?
      requires var id := model.conns[k].writer.id;
               && pending == (if Canceled(conn.pendingRequests) != {} then conn.pendingRequests - {id} else conn.pendingRequests)
               && (unvisited ==> id in conn.pendingRequests && Canceled(conn.pendingRequests) - {id} != {})
      requires walked == |conn.pendingRequests| - if unvisited then 1 else 0
      ensures S.Enabled(model, S.WriterSweep(k, unvisited))
      ensures S.DoSweep(model, k, unvisited)
              == S.SetConn(model, k, model.conns[k].(pending := RefMap(pending), writer := S.Swept(model.conns[k].writer.m)))
                  .(count := Lowered(pendingRequestsCount, walked))
    {
      SweptMap(k, conn, unvisited);
      SameSize(conn.pendingRequests);
      SweepCount(model, k, unvisited, walked, RefMap(pending));
    }

    lemma SweptMap(k: nat, conn: Connection, unvisited: bool)
      requires Valid() && k < |conns| && conn == conns[k] && !panicked && model.conns[k].writer.Filed?
      requires var id := model.conns[k].writer.id;
               unvisited ==> id in conn.pendingRequests && Canceled(conn.pendingRequests) - {id} != {}
      ensures S.Enabled(model, S.WriterSweep(k, unvisited))
      ensures var id := model.conns[k].writer.id;
              RefMap(if Canceled(conn.pendingRequests) != {} then conn.pendingRequests - {id} else conn.pendingRequests)
              == S.DoSweep(model, k, unvisited).conns[k].pending
    {
      var id := model.conns[k].writer.id;
      CanceledIs(k, conn, {});
      CanceledIs(k, conn, {id});
      assert model.conns[k].pending - {} == model.conns[k].pending;
      assert RefMap(conn.pendingRequests - {id}) == RefMap(conn.pendingRequests) - {id};
    }

    /** The canceled entries of a connection are those the model calls canceled. */
    lemma CanceledIs(k: nat, conn: Connection, gone: set<uint32>)
      requires Valid() && k < |conns| && conn == conns[k]
      ensures S.AnyCanceled(model, model.conns[k].pending - gone) <==> Canceled(conn.pendingRequests) - gone != {}
    {
      var pending, refs := conn.pendingRequests, model.conns[k].pending - gone;
      forall id | id in pending && id !in gone
        ensures id in refs && refs[id] < |model.heap| && model.heap[refs[id]].canceled == pending[id].canceled
      {
        assert Owns(pending[id]) && RefMap(pending)[id] == pending[id].ref;
        assert results[pending[id].ref].Cell() == model.heap[pending[id].ref];
      }
      if id :| id in Canceled(pending) - gone {
        assert id in refs && model.heap[refs[id]].canceled;
      }
      if S.AnyCanceled(model, refs) {
        var id :| id in refs && refs[id] < |model.heap| && model.heap[refs[id]].canceled;
        assert id in Canceled(pending) - gone;
      }
    }

    lemma FiledApart(h: Safety.Hist, k: nat, conn: Connection)
      requires Valid() && Safety.Inv(model, h) && k < |conns| && conn == conns[k]
      ensures Apart(conn.pendingRequests, conn.pendingRequests.Values)
      ensures forall m <- conn.pendingRequests.Values :: Owns(m)
      ensures forall i :: 0 <= i < |results| ==>
                            (results[i] in conn.pendingRequests.Values <==> i in model.conns[k].pending.Values)
    {
      var pending := conn.pendingRequests;
      forall id | id in pending
        ensures model.conns[k].pending[id] == pending[id].ref && Owns(pending[id])
        ensures pending[id].Done.Open? && pending[id].Request.Some? && pending[id].Request.value.ID() == id
      {
        Safety.PendingIsAlone(model, h, k, id);
        assert RefMap(pending)[id] == pending[id].ref;
        assert results[pending[id].ref].Cell() == model.heap[pending[id].ref];
      }
      forall i | 0 <= i < |results|
        ensures results[i] in pending.Values <==> i in model.conns[k].pending.Values
      {
        if results[i] in pending.Values {
          var id :| id in pending && pending[id] == results[i];
          assert model.conns[k].pending[id] == i;
        }
        if i in model.conns[k].pending.Values {
          var id :| id in model.conns[k].pending && model.conns[k].pending[id] == i;
          assert pending[id] == results[i];
        }
      }
    }

    /**
     The end of `clientHandleConnection`, once both goroutines of the connection are gone: every call left in its
     map is completed with the connection's error, and the counter gives up exactly as many.
     */
    method Teardown(ghost h: Safety.Hist, ghost k: nat, conn: Connection, err: Option<S.CallError>)
      returns (ghost run: seq<S.Step>, ghost h': Safety.Hist)
      requires Valid() && Safety.Inv(model, h) && k < |conns| && conn == conns[k]
      requires model.conns[k].writer.Stopped? && model.conns[k].readerDone
      modifies this`pendingRequestsCount, this`model, conn, conn.pendingRequests.Values
      ensures Valid() && Safety.Inv(model, h')
      ensures Runs.Legal(old(model), run) && model == Runs.After(old(model), run)
      ensures conn.pendingRequests == map[]
      ensures forall id :: id in old(conn.pendingRequests) ==> var m := old(conn.pendingRequests)[id];
                                                               m.Done.Closed? && m.Error == err
      ensures pendingRequestsCount == Lowered(old(pendingRequestsCount), |old(conn.pendingRequests)|)
    {
      FiledApart(h, k, conn);
      run, h' := TornDown(model, [], model, h, k, err);
      ghost var left, refs := conn.pendingRequests.Values, model.conns[k].pending.Values;
      Empty(Runs.After(model, run), k, conn, left, refs, err);
    }

    /** The results left in the map; the map itself and the counter are still as they were. */
    method FailAll(ghost after: seq<S.AsyncResult>, conn: Connection, ghost left: set<AsyncResult>, ghost refs: set<S.Ref>,
                   err: Option<S.CallError>)
      returns (count: uint32)
      requires Valid() && Apart(conn.pendingRequests, left)
      requires AllFailed(model.heap, refs, err, after)
      requires forall i :: 0 <= i < |results| ==> (results[i] in left <==> i in refs)
      modifies this`model, left
      ensures Valid() && model == old(model).(heap := after)
      ensures forall m <- left :: m.Done.Closed? && m.Error == err
      ensures count == Lowered(pendingRequestsCount, |conn.pendingRequests|)
    {
      count := CompleteAll(conn.pendingRequests, left, err, pendingRequestsCount);
      model := model.(heap := after);
    }

    method DropFiled(ghost k: nat, conn: Connection, count: uint32)
      requires Valid() && k < |conns| && conn == conns[k]
      modifies this`pendingRequestsCount, this`model, conn
      ensures Valid() && conn.pendingRequests == map[] && pendingRequestsCount == count
      ensures model == S.SetConn(old(model), k, old(model.conns[k]).(pending := map[])).(count := count)
    {
      assert RefMap(map[]) == map[];
      SetPending(k, conn, map[], count, model.conns[k].writer);
    }

    method Empty(ghost t: S.Client, ghost k: nat, conn: Connection, ghost left: set<AsyncResult>, ghost refs: set<S.Ref>,
                 err: Option<S.CallError>)
      requires Valid() && k < |conns| && conn == conns[k] && Apart(conn.pendingRequests, left)
      requires Torn(model, k, refs, err, t)
      requires forall i :: 0 <= i < |results| ==> (results[i] in left <==> i in refs)
      modifies this`pendingRequestsCount, this`model, conn, left
      ensures Valid() && model == t && conn.pendingRequests == map[]
      ensures forall m <- left :: m.Done.Closed? && m.Error == err
      ensures pendingRequestsCount == Lowered(old(pendingRequestsCount), |old(conn.pendingRequests)|)
    {
      SameSize(conn.pendingRequests);
      hide Holds, Lists, Apart, AllFailed;
      var count := FailAll(t.heap, conn, left, refs, err);
      DropFiled(k, conn, count);
    }
  }
}
