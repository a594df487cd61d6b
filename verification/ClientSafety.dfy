/**
 What every step of the client keeps: who may touch which AsyncResult.

 `Hist` is what an observer of the run remembers beside the state. `own` says of every result where it is, so
 "exactly one place" is built in; the invariant ties the queue, the pool, the pending maps, the writers and
 the callers to it. `Exclusive` says the outcome in terms of the state alone.
 */
module ClientSafety {
  import opened Wrappers
  import opened Bytes
  import opened Encoding
  import opened ClientSteps

  /** Held by its caller, in the queue, in a writer's hands, filed under a Seq, free for reuse, or finished with. */
  datatype Place = Held | Queued | Writing(k: nat) | Pending(k: nat, id: uint32) | Pooled | Gone

  datatype Own = Own(place: Place, user: nat)

  datatype Hist = Hist(own: seq<Own>, asked: set<Packet>, delivered: set<Packet>)

  ghost predicate At(s: Client, h: Hist, m: Ref, place: Place) {
    m < |h.own| && h.own[m].place == place
  }

  ghost predicate CellOk(s: Client, h: Hist, m: Ref)
    requires m < |s.heap| && |h.own| == |s.heap|
  {
    var cell := s.heap[m];
    match h.own[m].place
    case Pooled => cell.request.None? && cell.response.None? && cell.error.None? && cell.done.NoChan?
    case Gone =>
      && (cell.request.Some? ==> cell.request.value in h.asked)
      && (cell.response.Some? ==>
            cell.request.Some? && cell.response.value in h.delivered && cell.response.value.ID() == cell.request.value.ID())
    case place =>
      && cell.request.Some? && cell.request.value in h.asked && cell.response.None? && cell.error.None?
      && cell.done == (if cell.skipResponse then NoChan else Open)
      && (place.Pending? ==> !cell.skipResponse && cell.request.value.ID() == place.id)
  }

  ghost predicate CallOk(s: Client, h: Hist, c: nat)
    requires c < |s.calls| && |h.own| == |s.heap|
  {
    var call := s.calls[c];
    && call.request in h.asked
    && match call.phase
       case Ready => true
       case Finished(o) =>
         o.Reply? && o.response.Some? ==> o.response.value in h.delivered && o.response.value.ID() == call.request.ID()
       case Waiting(m) => call.mode.Sync? && Awaits(s, h, c, m)
       case Handed(m) => call.mode.Async? && Awaits(s, h, c, m)
       case p =>
         && p.m < |s.heap| && h.own[p.m] == Own(Held, c)
         && s.heap[p.m].request == Some(call.request) && s.heap[p.m].skipResponse == call.mode.OneWay?
  }

  /** The result a caller is looking at is still its own: nobody recycles it meanwhile. */
  ghost predicate Awaits(s: Client, h: Hist, c: nat, m: Ref)
    requires c < |s.calls| && |h.own| == |s.heap|
  {
    && m < |s.heap| && h.own[m].user == c && !h.own[m].place.Held? && !h.own[m].place.Pooled?
    && s.heap[m].request == Some(s.calls[c].request) && !s.heap[m].skipResponse
  }

  ghost predicate ConnOk(s: Client, h: Hist, k: nat)
    requires k < |s.conns| && |h.own| == |s.heap|
  {
    var conn := s.conns[k];
    && (forall id :: id in conn.pending ==> At(s, h, conn.pending[id], Pending(k, id)))
    && |conn.pending| <= 3 * s.pendingRequests + (if conn.writer.Filed? || conn.writer.Swept? || conn.writer.Stopped? then 2 else 1)
    && match conn.writer
       case Idle => true
       case Stopped => true
       case Took(m) => At(s, h, m, Writing(k))
       case Filing(m) => At(s, h, m, Writing(k)) && !s.heap[m].skipResponse
       case w => w.m < |s.heap|
  }

  ghost predicate QueueOk(s: Client, h: Hist) {
    && |s.queue| <= s.pendingRequests
    && (forall i :: 0 <= i < |s.queue| ==> At(s, h, s.queue[i], Queued))
    && (forall i, j :: 0 <= i < j < |s.queue| ==> s.queue[i] != s.queue[j])
  }

  ghost predicate PoolOk(s: Client, h: Hist) {
    forall m :: m in s.pool ==> At(s, h, m, Pooled) && s.pool[m] == 1
  }

  ghost predicate Inv(s: Client, h: Hist) {
    && !s.panicked
    && |h.own| == |s.heap|
    && QueueOk(s, h)
    && PoolOk(s, h)
    && Cells(s, h)
    && Conns(s, h)
    && Calls(s, h)
    && AskedOk(s, h)
  }

  ghost predicate Cells(s: Client, h: Hist) {
    |h.own| == |s.heap| && forall m :: 0 <= m < |s.heap| ==> CellOk(s, h, m)
  }

  ghost predicate Conns(s: Client, h: Hist) {
    |h.own| == |s.heap| && forall k :: 0 <= k < |s.conns| ==> ConnOk(s, h, k)
  }

  ghost predicate Calls(s: Client, h: Hist) {
    |h.own| == |s.heap| && forall c :: 0 <= c < |s.calls| ==> CallOk(s, h, c)
  }

  /** Only what some call asked for is ever in a result. */
  ghost predicate AskedOk(s: Client, h: Hist) {
    forall p :: p in h.asked ==> Requested(s, p)
  }

  ghost predicate Requested(s: Client, p: Packet) {
    exists c :: 0 <= c < |s.calls| && s.calls[c].request == p
  }

  // ----- what the invariant gives, in terms of the state alone

  /** No result is in two places, and nothing that is queued or filed has been completed. */
  ghost predicate Exclusive(s: Client) {
    && (forall i, j :: 0 <= i < j < |s.queue| ==> s.queue[i] != s.queue[j])
    && (forall m :: m in s.queue ==> m < |s.heap| && !s.heap[m].done.Closed? && m !in s.pool)
    && (forall m :: m in s.pool ==> s.pool[m] == 1)
    && (forall k, id :: 0 <= k < |s.conns| && id in s.conns[k].pending ==> FiledAlone(s, k, id))
    && (forall c, c' :: 0 <= c < c' < |s.calls| && s.calls[c].phase.Waiting? && s.calls[c'].phase.Waiting?
                        ==> s.calls[c].phase.m != s.calls[c'].phase.m)
    && (forall c :: 0 <= c < |s.calls| && s.calls[c].phase.Waiting? ==> s.calls[c].phase.m !in s.pool)
  }

  /** A pending entry is open, carries its own Seq, and is neither queued, free for reuse, nor filed anywhere else. */
  ghost predicate FiledAlone(s: Client, k: nat, id: uint32)
    requires k < |s.conns| && id in s.conns[k].pending
  {
    var m := s.conns[k].pending[id];
    && m < |s.heap| && s.heap[m].done.Open? && m !in s.queue && m !in s.pool
    && s.heap[m].request.Some? && s.heap[m].request.value.ID() == id
    && forall k', id' :: 0 <= k' < |s.conns| && id' in s.conns[k'].pending && s.conns[k'].pending[id'] == m
                         ==> k' == k && id' == id
  }

  ghost predicate Bounded(s: Client) {
    && |s.queue| <= s.pendingRequests
    && forall k :: 0 <= k < |s.conns| ==> |s.conns[k].pending| <= 3 * s.pendingRequests + 2
  }

  lemma PendingIsAlone(s: Client, h: Hist, k: nat, id: uint32)
    requires Inv(s, h) && k < |s.conns| && id in s.conns[k].pending
    ensures FiledAlone(s, k, id)
  {
    assert ConnOk(s, h, k);
    var m := s.conns[k].pending[id];
    assert At(s, h, m, Pending(k, id));
    assert CellOk(s, h, m);
    forall k', id' | 0 <= k' < |s.conns| && id' in s.conns[k'].pending && s.conns[k'].pending[id'] == m
      ensures k' == k && id' == id
    {
      assert ConnOk(s, h, k');
      assert At(s, h, s.conns[k'].pending[id'], Pending(k', id'));
    }
  }

  lemma InvGives(s: Client, h: Hist)
    requires Inv(s, h)
    ensures Exclusive(s) && Bounded(s)
  {
    forall k, id | 0 <= k < |s.conns| && id in s.conns[k].pending
      ensures FiledAlone(s, k, id)
    {
      PendingIsAlone(s, h, k, id);
    }
    forall c | 0 <= c < |s.calls| && s.calls[c].phase.Waiting?
      ensures Awaits(s, h, c, s.calls[c].phase.m)
    {
      assert CallOk(s, h, c);
    }
    forall m | m in s.queue
      ensures m < |s.heap| && !s.heap[m].done.Closed? && m !in s.pool
    {
      var i :| 0 <= i < |s.queue| && s.queue[i] == m;
      assert At(s, h, s.queue[i], Queued);
      assert CellOk(s, h, m);
    }
    forall k | 0 <= k < |s.conns|
      ensures |s.conns[k].pending| <= 3 * s.pendingRequests + 2
    {
      assert ConnOk(s, h, k);
    }
  }

  // ----- every step keeps it

  function Move(h: Hist, m: Ref, place: Place): Hist
    requires m < |h.own|
  {
    h.(own := h.own[m := h.own[m].(place := place)])
  }

  lemma PendingShrinks(pending: map<uint32, Ref>, id: uint32)
    ensures |pending - {id}| == |pending| - if id in pending then 1 else 0
  {
    assert (pending - {id}).Keys == pending.Keys - {id};
  }

  lemma PendingGrows(pending: map<uint32, Ref>, id: uint32, m: Ref)
    ensures |pending[id := m]| == |pending| + if id in pending then 0 else 1
  {
    assert pending[id := m].Keys == pending.Keys + {id};
  }

  lemma KeepsInvoke(s: Client, h: Hist, req: Packet, mode: Mode) returns (h': Hist)
    requires Inv(s, h) && Enabled(s, Invoke(req, mode))
    ensures Inv(Apply(s, Invoke(req, mode)), h')
    ensures h' == h.(asked := h.asked + {req})
  {
    h' := h.(asked := h.asked + {req});
    var s' := Apply(s, Invoke(req, mode));
    forall p | p in h'.asked
      ensures Requested(s', p)
    {
      if p == req {
        assert s'.calls[|s.calls|].request == p;
      } else {
        assert Requested(s, p);
        var c :| 0 <= c < |s.calls| && s.calls[c].request == p;
        assert s'.calls[c].request == p;
      }
    }
    forall m | 0 <= m < |s.heap|
      ensures CellOk(s', h', m)
    {
      assert CellOk(s, h, m);
    }
    forall k | 0 <= k < |s.conns|
      ensures ConnOk(s', h', k)
    {
      assert ConnOk(s, h, k);
    }
    forall c | 0 <= c < |s.calls|
      ensures CallOk(s', h', c)
    {
      assert CallOk(s, h, c);
    }
  }

  /** Only the calls' progress has changed, not what they ask for. */
  ghost predicate SameRequests(s: Client, s': Client) {
    && |s'.calls| == |s.calls|
    && forall c :: 0 <= c < |s.calls| ==> s'.calls[c].request == s.calls[c].request && s'.calls[c].mode == s.calls[c].mode
  }

  lemma AskedStays(s: Client, s': Client, h: Hist, h': Hist)
    requires AskedOk(s, h) && SameRequests(s, s') && h'.asked == h.asked
    ensures AskedOk(s', h')
  {
    forall p | p in h'.asked
      ensures Requested(s', p)
    {
      assert Requested(s, p);
      var c :| 0 <= c < |s.calls| && s.calls[c].request == p;
      assert s'.calls[c].request == p;
    }
  }

  /** Nothing about results other than `m` has changed. */
  ghost predicate OnlyCell(s: Client, s': Client, h: Hist, h': Hist, m: Ref) {
    && |h.own| == |s.heap| && |h'.own| == |s'.heap| == |s.heap|
    && h'.asked == h.asked && h.delivered <= h'.delivered
    && s'.pendingRequests == s.pendingRequests
    && forall x :: 0 <= x < |s.heap| && x != m ==> s'.heap[x] == s.heap[x] && h'.own[x] == h.own[x]
  }

  lemma CellsStay(s: Client, s': Client, h: Hist, h': Hist, m: Ref)
    requires Cells(s, h) && OnlyCell(s, s', h, h', m)
    requires m < |s.heap| ==> CellOk(s', h', m)
    ensures Cells(s', h')
  {
    forall x | 0 <= x < |s'.heap|
      ensures CellOk(s', h', x)
    {
      if x != m {
        assert CellOk(s, h, x);
      }
    }
  }

  /** `m` is not in the hands of a connection other than `k`. */
  ghost predicate NotOthers(h: Hist, m: Ref, k: int)
    requires m < |h.own|
  {
    (h.own[m].place.Writing? ==> h.own[m].place.k == k) && (h.own[m].place.Pending? ==> h.own[m].place.k == k)
  }

  /** No call other than `c` is using `m`. */
  ghost predicate NotAwaited(s: Client, h: Hist, m: Ref, c: int)
    requires m < |s.heap| && |h.own| == |s.heap|
  {
    || (h.own[m].user == c && (h.own[m].place.Held? || h.own[m].place.Gone?))
    || h.own[m].place.Pooled?
    || (!h.own[m].place.Held? && s.heap[m].skipResponse)
  }

  /** Whoever is waiting for `m` may go on doing so. */
  ghost predicate StillAwaited(s: Client, s': Client, h: Hist, h': Hist, m: Ref)
    requires m < |s.heap| && |s'.heap| == |s.heap| && |h.own| == |s.heap| && |h'.own| == |s.heap|
  {
    && !h.own[m].place.Held? && !h'.own[m].place.Held? && !h'.own[m].place.Pooled? && h'.own[m].user == h.own[m].user
    && s'.heap[m].request == s.heap[m].request && s'.heap[m].skipResponse == s.heap[m].skipResponse
  }

  /** Connections other than `k` do not notice what happens to a result that is neither theirs to file nor filed with them. */
  lemma ConnsStay(s: Client, s': Client, h: Hist, h': Hist, m: Ref, k: int)
    requires Conns(s, h) && OnlyCell(s, s', h, h', m) && |s'.conns| == |s.conns|
    requires forall x :: 0 <= x < |s.conns| && x != k ==> s'.conns[x] == s.conns[x]
    requires 0 <= k < |s.conns| ==> ConnOk(s', h', k)
    requires m < |s.heap| ==> NotOthers(h, m, k)
    ensures Conns(s', h')
  {
    forall x | 0 <= x < |s'.conns|
      ensures ConnOk(s', h', x)
    {
      if x != k {
        assert ConnOk(s, h, x);
      }
    }
  }

  /** Calls other than `c` do not notice what happens to a result that they are not using. */
  lemma CallsStay(s: Client, s': Client, h: Hist, h': Hist, m: Ref, c: int)
    requires Calls(s, h) && OnlyCell(s, s', h, h', m) && |s'.calls| == |s.calls|
    requires forall x :: 0 <= x < |s.calls| && x != c ==> s'.calls[x] == s.calls[x]
    requires 0 <= c < |s.calls| ==> CallOk(s', h', c)
    requires m < |s.heap| ==> NotAwaited(s, h, m, c) || StillAwaited(s, s', h, h', m)
    ensures Calls(s', h')
  {
    forall x | 0 <= x < |s'.calls|
      ensures CallOk(s', h', x)
    {
      if x != c {
        assert CallOk(s, h, x);
      }
    }
  }

  /** A step of connection `k` or call `c` (-1 for none) on result `m`: everyone else's share of the invariant. */
  lemma Elsewhere(s: Client, s': Client, h: Hist, h': Hist, m: Ref, k: int, c: int)
    requires Cells(s, h) && Conns(s, h) && Calls(s, h) && AskedOk(s, h)
    requires OnlyCell(s, s', h, h', m) && SameRequests(s, s') && |s'.conns| == |s.conns|
    requires forall x :: 0 <= x < |s.conns| && x != k ==> s'.conns[x] == s.conns[x]
    requires forall x :: 0 <= x < |s.calls| && x != c ==> s'.calls[x] == s.calls[x]
    requires m < |s.heap| ==> CellOk(s', h', m)
    requires 0 <= k < |s.conns| ==> ConnOk(s', h', k)
    requires 0 <= c < |s.calls| ==> CallOk(s', h', c)
    requires m < |s.heap| ==> NotOthers(h, m, k) && (NotAwaited(s, h, m, c) || StillAwaited(s, s', h, h', m))
    ensures Cells(s', h') && Conns(s', h') && Calls(s', h') && AskedOk(s', h')
  {
    AskedStays(s, s', h, h');
    CellsStay(s, s', h, h', m);
    ConnsStay(s, s', h, h', m, k);
    CallsStay(s, s', h, h', m, c);
  }

  lemma KeepsAcquire(s: Client, h: Hist, c: nat, m: Ref) returns (h': Hist)
    requires Inv(s, h) && Enabled(s, Acquire(c, m))
    ensures Inv(Apply(s, Acquire(c, m)), h')
    ensures h'.asked == h.asked && h'.delivered == h.delivered
  {
    if m == |s.heap| {
      h' := KeepsAcquireFresh(s, h, c);
    } else {
      h' := KeepsAcquirePooled(s, h, c, m);
    }
  }

  lemma KeepsAcquireFresh(s: Client, h: Hist, c: nat) returns (h': Hist)
    requires Inv(s, h) && Enabled(s, Acquire(c, |s.heap|))
    ensures Inv(Apply(s, Acquire(c, |s.heap|)), h')
    ensures h'.asked == h.asked && h'.delivered == h.delivered
  {
    var s' := Apply(s, Acquire(c, |s.heap|));
    h' := h.(own := h.own + [Own(Held, c)]);
    AskedStays(s, s', h, h');
    assert CallOk(s, h, c);
    forall m | 0 <= m < |s.heap|
      ensures CellOk(s', h', m)
    {
      assert CellOk(s, h, m);
    }
    forall k | 0 <= k < |s.conns|
      ensures ConnOk(s', h', k)
    {
      assert ConnOk(s, h, k);
    }
    forall x | 0 <= x < |s.calls| && x != c
      ensures CallOk(s', h', x)
    {
      assert CallOk(s, h, x);
    }
  }

  lemma KeepsAcquirePooled(s: Client, h: Hist, c: nat, m: Ref) returns (h': Hist)
    requires Inv(s, h) && Enabled(s, Acquire(c, m)) && m < |s.heap|
    ensures Inv(Apply(s, Acquire(c, m)), h')
    ensures h'.asked == h.asked && h'.delivered == h.delivered
  {
    var s' := Apply(s, Acquire(c, m));
    h' := h.(own := h.own[m := Own(Held, c)]);
    assert At(s, h, m, Pooled);
    assert CallOk(s, h, c) && CellOk(s, h, m);
    Elsewhere(s, s', h, h', m, -1, c);
  }

  /** Both sends of callAsync, when there is room. */
  lemma KeepsEnqueue(s: Client, h: Hist, c: nat, s': Client) returns (h': Hist)
    requires Inv(s, h) && CallAt(s, c) && (s.calls[c].phase.Sending? || s.calls[c].phase.Resending?)
    requires |s.queue| < s.pendingRequests
    requires s' == SetCall(s.(queue := s.queue + [s.calls[c].phase.m]), c, AfterSend(s.calls[c].mode, s.calls[c].phase.m))
    ensures Inv(s', h')
    ensures h'.asked == h.asked && h'.delivered == h.delivered
  {
    var m := s.calls[c].phase.m;
    h' := Move(h, m, Queued);
    assert CallOk(s, h, c) && CellOk(s, h, m);
    Elsewhere(s, s', h, h', m, -1, c);
  }

  /** A caller that gives its own result back to the pool. */
  lemma KeepsRelease(s: Client, h: Hist, c: nat, m: Ref, s': Client, o: Outcome) returns (h': Hist)
    requires Inv(s, h) && CallAt(s, c) && m < |s.heap|
    requires h.own[m].user == c && (h.own[m].place.Held? || h.own[m].place.Gone?)
    requires s' == SetCall(Release(s, m), c, Finished(o))
    requires CallOk(SetCall(s, c, Finished(o)), h, c)
    ensures Inv(s', h')
    ensures h'.asked == h.asked && h'.delivered == h.delivered
  {
    h' := Move(h, m, Pooled);
    assert CellOk(s, h, m);
    Elsewhere(s, s', h, h', m, -1, c);
  }

  /** A call that only moves on, keeping its result. */
  lemma KeepsPhase(s: Client, h: Hist, c: nat, s': Client)
    requires Inv(s, h) && c < |s.calls| && |s'.calls| == |s.calls| && s'.calls == s.calls[c := s'.calls[c]]
    requires s' == s.(calls := s'.calls) && s'.calls[c].request == s.calls[c].request && s'.calls[c].mode == s.calls[c].mode
    requires CallOk(s', h, c)
    ensures Inv(s', h)
  {
    Elsewhere(s, s', h, h, |s.heap|, -1, c);
  }

  lemma KeepsTrySend(s: Client, h: Hist, c: nat) returns (h': Hist)
    requires Inv(s, h) && Enabled(s, TrySend(c))
    ensures Inv(Apply(s, TrySend(c)), h')
    ensures h'.asked == h.asked && h'.delivered == h.delivered
  {
    var s' := Apply(s, TrySend(c));
    assert CallOk(s, h, c);
    if |s.queue| < s.pendingRequests {
      h' := KeepsEnqueue(s, h, c, s');
    } else if s.calls[c].mode.OneWay? {
      h' := KeepsRelease(s, h, c, s.calls[c].phase.m, s', Failed(TimeOut));
    } else {
      h' := h;
      KeepsPhase(s, h, c, s');
    }
  }

  lemma KeepsResend(s: Client, h: Hist, c: nat) returns (h': Hist)
    requires Inv(s, h) && Enabled(s, Resend(c))
    ensures Inv(Apply(s, Resend(c)), h')
    ensures h'.asked == h.asked && h'.delivered == h.delivered
  {
    var s' := Apply(s, Resend(c));
    assert CallOk(s, h, c);
    if |s.queue| < s.pendingRequests {
      h' := KeepsEnqueue(s, h, c, s');
    } else if UsePool(s.calls[c].mode) {
      h' := KeepsRelease(s, h, c, s.calls[c].phase.m, s', Failed(Overflow));
    } else {
      h' := h;
      KeepsPhase(s, h, c, s');
    }
  }

  lemma KeepsComplete(s: Client, h: Hist, c: nat) returns (h': Hist)
    requires Inv(s, h) && Enabled(s, Complete(c))
    ensures Inv(Apply(s, Complete(c)), h')
    ensures h'.asked == h.asked && h'.delivered == h.delivered
  {
    var s' := Apply(s, Complete(c));
    var m := s.calls[c].phase.m;
    assert CallOk(s, h, c) && CellOk(s, h, m);
    h' := KeepsRelease(s, h, c, m, s', s'.calls[c].phase.outcome);
  }

  lemma KeepsCancelFlag(s: Client, h: Hist, m: Ref, s': Client)
    requires Inv(s, h) && m < |s.heap|
    requires s' == s.(heap := s.heap[m := s.heap[m].(canceled := true)])
    ensures Inv(s', h)
  {
    assert CellOk(s, h, m);
    AskedStays(s, s', h, h);
    CellsStay(s, s', h, h, m);
    forall k | 0 <= k < |s.conns|
      ensures ConnOk(s', h, k)
    {
      assert ConnOk(s, h, k);
    }
    forall c | 0 <= c < |s.calls|
      ensures CallOk(s', h, c)
    {
      assert CallOk(s, h, c);
    }
  }

  lemma KeepsExpire(s: Client, h: Hist, c: nat)
    requires Inv(s, h) && Enabled(s, Expire(c))
    ensures Inv(Apply(s, Expire(c)), h)
  {
    var m := s.calls[c].phase.m;
    var s1 := s.(heap := s.heap[m := s.heap[m].(canceled := true)]);
    KeepsCancelFlag(s, h, m, s1);
    assert CallOk(s, h, c);
    KeepsPhase(s1, h, c, Apply(s, Expire(c)));
  }

  /** Taking the oldest entry off the queue. */
  lemma QueuePops(s: Client, h: Hist, s': Client, h': Hist, place: Place)
    requires QueueOk(s, h) && s.queue != [] && s'.queue == s.queue[1..] && s'.pendingRequests == s.pendingRequests
    requires s.queue[0] < |h.own| && h' == Move(h, s.queue[0], place)
    ensures QueueOk(s', h')
  {
    assert forall i :: 0 <= i < |s'.queue| ==> s'.queue[i] == s.queue[i + 1];
  }

  lemma KeepsEvict(s: Client, h: Hist, c: nat) returns (h': Hist)
    requires Inv(s, h) && Enabled(s, EvictOldest(c))
    ensures Inv(Apply(s, EvictOldest(c)), h')
    ensures h'.asked == h.asked && h'.delivered == h.delivered
  {
    var s' := Apply(s, EvictOldest(c));
    var call := s.calls[c];
    assert CallOk(s, h, c);
    if s.queue == [] {
      h' := h;
      KeepsPhase(s, h, c, s');
    } else {
      var mm := s.queue[0];
      assert At(s, h, mm, Queued);
      assert CellOk(s, h, mm) && CellOk(s, h, call.phase.m);
      var place := if s.heap[mm].done.NoChan? && UsePool(call.mode) then Pooled else Gone;
      h' := Move(h, mm, place);
      QueuePops(s, h, s', h', place);
      assert PoolOk(s', h') && CallOk(s', h', c);
      hide PoolOk, QueueOk, ConnOk, Cells, Conns, Calls, AskedOk, CellOk, CallOk;
      Elsewhere(s, s', h, h', mm, -1, c);
    }
  }

  lemma KeepsConnect(s: Client, h: Hist)
    requires Inv(s, h) && Enabled(s, Connect)
    ensures Inv(Apply(s, Connect), h)
  {
    var s' := Apply(s, Connect);
    AskedStays(s, s', h, h);
    CellsStay(s, s', h, h, |s.heap|);
    CallsStay(s, s', h, h, |s.heap|, -1);
    forall k | 0 <= k < |s.conns|
      ensures ConnOk(s', h, k)
    {
      assert ConnOk(s, h, k);
    }
  }

  /** A connection that only moves on, without touching any result. */
  lemma KeepsConn(s: Client, h: Hist, k: nat, s': Client)
    requires Inv(s, h) && k < |s.conns| && |s'.conns| == |s.conns|
    requires s' == s.(count := s'.count, conns := s.conns[k := s'.conns[k]])
    requires ConnOk(s', h, k)
    ensures Inv(s', h)
  {
    Elsewhere(s, s', h, h, |s.heap|, k, -1);
  }

  lemma KeepsTake(s: Client, h: Hist, k: nat) returns (h': Hist)
    requires Inv(s, h) && Enabled(s, WriterTake(k))
    ensures Inv(Apply(s, WriterTake(k)), h')
    ensures h'.asked == h.asked && h'.delivered == h.delivered
  {
    var s' := Apply(s, WriterTake(k));
    var m := s.queue[0];
    assert At(s, h, m, Queued);
    assert CellOk(s, h, m) && ConnOk(s, h, k);
    h' := Move(h, m, Writing(k));
    QueuePops(s, h, s', h', Writing(k));
    Elsewhere(s, s', h, h', m, k, -1);
  }

  /** The writer is done with a result it took: closed as canceled, or about to be sent without being filed. */
  /** Writer `k` has let go of its result, and all else is in order. */
  ghost predicate LetGone(s: Client, s': Client, h: Hist, k: nat, m: Ref) {
    && k < |s.conns| == |s'.conns| && m < |h.own| == |s.heap| == |s'.heap|
    && var h' := Move(h, m, Gone);
    && OnlyCell(s, s', h, h', m) && SameRequests(s, s') && s'.calls == s.calls && !s'.panicked
    && (forall x :: 0 <= x < |s.conns| && x != k ==> s'.conns[x] == s.conns[x])
    && CellOk(s', h', m) && ConnOk(s', h', k) && PoolOk(s', h') && QueueOk(s', h')
    && NotOthers(h, m, k) && (NotAwaited(s, h, m, -1) || StillAwaited(s, s', h, h', m))
  }

  lemma LetGoFailed(s: Client, h: Hist, k: nat)
    requires Inv(s, h) && k < |s.conns| && s.conns[k].writer.Took? && s.conns[k].writer.m < |s.heap|
    requires !s.heap[s.conns[k].writer.m].done.NoChan?
    ensures var m := s.conns[k].writer.m; LetGone(s, SetWriter(FinishWith(s, m, Some(Canceled)), k, Idle), h, k, m)
  {
    hide AskedOk, Calls;
    var m := s.conns[k].writer.m;
    assert ConnOk(s, h, k) && At(s, h, m, Writing(k)) && CellOk(s, h, m);
  }

  lemma LetGoOneWay(s: Client, h: Hist, k: nat)
    requires Inv(s, h) && k < |s.conns| && s.conns[k].writer.Took? && s.conns[k].writer.m < |s.heap|
    requires s.heap[s.conns[k].writer.m].skipResponse
    ensures var m := s.conns[k].writer.m; LetGone(s, SetWriter(s, k, Encoding(m)), h, k, m)
  {
    hide AskedOk, Calls;
    var m := s.conns[k].writer.m;
    assert ConnOk(s, h, k) && At(s, h, m, Writing(k)) && CellOk(s, h, m);
  }

  lemma KeepsLetGo(s: Client, h: Hist, k: nat, s': Client) returns (h': Hist)
    requires Inv(s, h) && k < |s.conns| && s.conns[k].writer.Took? && s.conns[k].writer.m < |s.heap|
    requires var m := s.conns[k].writer.m;
             || (!s.heap[m].done.NoChan? && s' == SetWriter(FinishWith(s, m, Some(Canceled)), k, Idle))
             || (s.heap[m].skipResponse && s' == SetWriter(s, k, Encoding(m)))
    ensures Inv(s', h')
    ensures h'.asked == h.asked && h'.delivered == h.delivered
  {
    hide PoolOk, QueueOk, ConnOk, Cells, Conns, Calls, AskedOk, CellOk, CallOk, OnlyCell, SameRequests, NotOthers, NotAwaited,
         StillAwaited;
    var m := s.conns[k].writer.m;
    if s.heap[m].skipResponse && s' == SetWriter(s, k, Encoding(m)) {
      LetGoOneWay(s, h, k);
    } else {
      LetGoFailed(s, h, k);
    }
    h' := Move(h, m, Gone);
    Elsewhere(s, s', h, h', m, k, -1);
  }

  lemma KeepsGiveBack(s: Client, h: Hist, k: nat, s': Client) returns (h': Hist)
    requires Inv(s, h) && k < |s.conns| && s.conns[k].writer.Took? && s.conns[k].writer.m < |s.heap|
    requires s.heap[s.conns[k].writer.m].done.NoChan? && s' == SetWriter(Release(s, s.conns[k].writer.m), k, Idle)
    ensures Inv(s', h')
    ensures h'.asked == h.asked && h'.delivered == h.delivered
  {
    var m := s.conns[k].writer.m;
    assert ConnOk(s, h, k);
    assert At(s, h, m, Writing(k));
    assert CellOk(s, h, m);
    h' := Move(h, m, Pooled);
    assert PoolOk(s', h') && QueueOk(s', h');
    assert ConnOk(s', h', k);
    hide PoolOk, QueueOk, ConnOk, Cells, Conns, Calls, AskedOk;
    Elsewhere(s, s', h, h', m, k, -1);
  }

  /** What the writer does with a result it took: fail it, give it back, send it unfiled, or go on to file it. */
  lemma CheckedOnce(s: Client, k: nat) returns (s': Client)
    requires Enabled(s, WriterCheck(k))
    ensures s' == Apply(s, WriterCheck(k)) && k < |s.conns| && s.conns[k].writer.Took? && s.conns[k].writer.m < |s.heap|
    ensures var m := s.conns[k].writer.m;
            s' == if s.heap[m].canceled && s.heap[m].done.NoChan? then SetWriter(Release(s, m), k, Idle)
                  else if s.heap[m].canceled then SetWriter(FinishWith(s, m, Some(Canceled)), k, Idle)
                  else SetWriter(s, k, if s.heap[m].skipResponse then Encoding(m) else Filing(m))
  {
    s' := Apply(s, WriterCheck(k));
  }

  lemma KeepsCheck(s: Client, h: Hist, k: nat) returns (h': Hist)
    requires Inv(s, h) && Enabled(s, WriterCheck(k))
    ensures Inv(Apply(s, WriterCheck(k)), h')
    ensures h'.asked == h.asked && h'.delivered == h.delivered
  {
    var s' := CheckedOnce(s, k);
    hide Enabled, Apply;
    var m := s.conns[k].writer.m;
    var cell := s.heap[m];
    if cell.canceled && cell.done.NoChan? {
      h' := KeepsGiveBack(s, h, k, s');
    } else if cell.canceled || cell.skipResponse {
      h' := KeepsLetGo(s, h, k, s');
    } else {
      h' := h;
      KeepsUnchecked(s, h, k, s');
    }
  }

  lemma KeepsUnchecked(s: Client, h: Hist, k: nat, s': Client)
    requires Inv(s, h) && k < |s.conns| && s.conns[k].writer.Took? && s.conns[k].writer.m < |s.heap|
    requires !s.heap[s.conns[k].writer.m].skipResponse && s' == SetWriter(s, k, Filing(s.conns[k].writer.m))
    ensures Inv(s', h)
  {
    assert ConnOk(s, h, k);
    hide Cells, Calls, QueueOk, PoolOk, AskedOk;
    KeepsConn(s, h, k, s');
  }

  lemma KeepsFile(s: Client, h: Hist, k: nat) returns (h': Hist)
    requires Inv(s, h) && Enabled(s, WriterFile(k))
    ensures Inv(Apply(s, WriterFile(k)), h')
    ensures h'.asked == h.asked && h'.delivered == h.delivered
  {
    var s' := Apply(s, WriterFile(k));
    var conn := s.conns[k];
    var m := conn.writer.m;
    assert ConnOk(s, h, k);
    assert At(s, h, m, Writing(k));
    assert CellOk(s, h, m);
    var id := s.heap[m].request.value.ID();
    PendingGrows(conn.pending, id, m);
    hide Cells, Calls, QueueOk, PoolOk, AskedOk, CellOk, CallOk;
    if id in conn.pending {
      var s1, h1 := Unfiled(s, h, k, id);
      h' := KeepsFileNew(s1, h1, k, s');
    } else {
      h' := KeepsFileNew(s, h, k, s');
    }
  }

  /** A connection whose map loses one entry. */
  lemma ConnShrinks(s: Client, h: Hist, k: nat, id: uint32, s': Client, h': Hist)
    requires |h.own| == |s.heap| == |h'.own| == |s'.heap| && k < |s.conns| && k < |s'.conns| && ConnOk(s, h, k)
    requires id in s.conns[k].pending && s'.conns[k] == s.conns[k].(pending := s.conns[k].pending - {id})
    requires s'.pendingRequests == s.pendingRequests
    requires forall x :: 0 <= x < |s.heap| ==> s'.heap[x].skipResponse == s.heap[x].skipResponse
    requires forall x :: 0 <= x < |h.own| && x != s.conns[k].pending[id] ==> h'.own[x] == h.own[x]
    ensures ConnOk(s', h', k)
  {
    var pending := s.conns[k].pending;
    PendingShrinks(pending, id);
    assert At(s, h, pending[id], Pending(k, id));
    forall x | x in pending && x != id
      ensures At(s', h', pending[x], Pending(k, x))
    {
      assert At(s, h, pending[x], Pending(k, x));
    }
  }

  /** The entry a filing overwrites is abandoned: its map entry goes first, then the new one comes. */
  lemma Unfiled(s: Client, h: Hist, k: nat, id: uint32) returns (s1: Client, h1: Hist)
    requires Inv(s, h) && k < |s.conns| && id in s.conns[k].pending
    ensures s1 == SetConn(s, k, s.conns[k].(pending := s.conns[k].pending - {id}))
    ensures h1.asked == h.asked && h1.delivered == h.delivered
    ensures Inv(s1, h1)
    ensures s.conns[k].writer.Filing? ==> s.conns[k].writer.m != s.conns[k].pending[id]
  {
    var conn := s.conns[k];
    var m := conn.pending[id];
    s1 := SetConn(s, k, conn.(pending := conn.pending - {id}));
    assert ConnOk(s, h, k);
    assert At(s, h, m, Pending(k, id));
    assert CellOk(s, h, m);
    h1 := Move(h, m, Gone);
    ConnShrinks(s, h, k, id, s1, h1);
    assert PoolOk(s1, h1) && QueueOk(s1, h1) && CellOk(s1, h1, m);
    hide PoolOk, QueueOk, ConnOk, Cells, Conns, Calls, AskedOk, CellOk, CallOk;
    Elsewhere(s, s1, h, h1, m, k, -1);
  }

  lemma KeepsFileNew(s: Client, h: Hist, k: nat, s': Client) returns (h': Hist)
    requires Inv(s, h) && k < |s.conns| && s.conns[k].writer.Filing? && InHeap(s, s.conns[k].writer)
    requires s.heap[s.conns[k].writer.m].request.Some?
    requires s.heap[s.conns[k].writer.m].request.value.ID() !in s.conns[k].pending
    requires |s'.conns| == |s.conns| && s' == s.(count := s'.count, conns := s.conns[k := s'.conns[k]])
    requires var m := s.conns[k].writer.m;
             var id := s.heap[m].request.value.ID();
             && s'.conns[k].pending == s.conns[k].pending[id := m]
             && s'.conns[k].writer in {Filed(m, id), Encoding(m)}
             && |s'.conns[k].pending| <= 3 * s.pendingRequests + (if s'.conns[k].writer.Filed? then 2 else 1)
    ensures Inv(s', h')
    ensures h'.asked == h.asked && h'.delivered == h.delivered
  {
    var conn := s.conns[k];
    var m := conn.writer.m;
    var id := s.heap[m].request.value.ID();
    assert ConnOk(s, h, k);
    assert At(s, h, m, Writing(k));
    assert CellOk(s, h, m);
    h' := Move(h, m, Pending(k, id));
    assert ConnOk(s', h', k) by {
      forall x | x in conn.pending
        ensures At(s', h', conn.pending[x], Pending(k, x))
      {
        assert At(s, h, conn.pending[x], Pending(k, x));
      }
    }
    assert PoolOk(s', h') && QueueOk(s', h');
    hide PoolOk, QueueOk, ConnOk, Cells, Conns, Calls, AskedOk, CellOk, CallOk;
    Elsewhere(s, s', h, h', m, k, -1);
  }

  lemma SweptOnce(s: Client, k: nat, unvisited: bool) returns (s': Client)
    requires Enabled(s, WriterSweep(k, unvisited))
    ensures s' == Apply(s, WriterSweep(k, unvisited))
    ensures k < |s.conns| && s.conns[k].writer.Filed?
    ensures var conn := s.conns[k];
            s' == SetConn(s, k, Conn(if AnyCanceled(s, conn.pending) then conn.pending - {conn.writer.id} else conn.pending,
                                     Swept(conn.writer.m), conn.readerDone)).(count := s'.count)
  {
    s' := Apply(s, WriterSweep(k, unvisited));
  }

  lemma KeepsSwept(s: Client, h: Hist, k: nat, s': Client)
    requires Inv(s, h) && k < |s.conns| && s.conns[k].writer.Filed?
    requires s' == SetWriter(s, k, Swept(s.conns[k].writer.m)).(count := s'.count)
    ensures Inv(s', h)
  {
    assert ConnOk(s, h, k);
    hide Cells, Calls, QueueOk, PoolOk, AskedOk;
    KeepsConn(s, h, k, s');
  }

  lemma KeepsSweep(s: Client, h: Hist, k: nat, unvisited: bool) returns (h': Hist)
    requires Inv(s, h) && Enabled(s, WriterSweep(k, unvisited))
    ensures Inv(Apply(s, WriterSweep(k, unvisited)), h')
    ensures h'.asked == h.asked && h'.delivered == h.delivered
  {
    var s' := SweptOnce(s, k, unvisited);
    var conn := s.conns[k];
    var id := conn.writer.id;
    hide AnyCanceled, Apply, Enabled, Inv;
    if AnyCanceled(s, conn.pending) && id in conn.pending {
      var s1;
      s1, h' := Unfiled(s, h, k, id);
      KeepsSwept(s1, h', k, s');
    } else {
      h' := h;
      assert conn.pending - {id} == conn.pending || !AnyCanceled(s, conn.pending);
      KeepsSwept(s, h, k, s');
    }
  }

  /** A result leaves a pending map complete: by its reply, or when the connection is torn down. */
  lemma KeepsFinish(s: Client, h: Hist, k: nat, id: uint32, s': Client, cell: AsyncResult,
                    delivered: set<Packet>) returns (h': Hist)
    requires Inv(s, h) && k < |s.conns| && id in s.conns[k].pending && s.conns[k].pending[id] < |s.heap|
    requires var m := s.conns[k].pending[id];
             && s' == SetConn(s, k, s.conns[k].(pending := s.conns[k].pending - {id})).(count := s'.count, heap := s.heap[m := cell])
             && cell.request == s.heap[m].request && cell.skipResponse == s.heap[m].skipResponse
             && (cell.response.Some? ==> cell.response.value in delivered && cell.response.value.ID() == id)
    requires h.delivered <= delivered
    ensures Inv(s', h')
    ensures h'.asked == h.asked && h'.delivered == delivered
  {
    var conn := s.conns[k];
    var m := conn.pending[id];
    assert ConnOk(s, h, k);
    assert At(s, h, m, Pending(k, id));
    assert CellOk(s, h, m);
    h' := Move(h, m, Gone).(delivered := delivered);
    ConnShrinks(s, h, k, id, s', h');
    assert PoolOk(s', h') && QueueOk(s', h') && CellOk(s', h', m);
    hide PoolOk, QueueOk, ConnOk, Cells, Conns, Calls, AskedOk, CellOk, CallOk;
    Elsewhere(s, s', h, h', m, k, -1);
  }

  lemma KeepsDeliver(s: Client, h: Hist, k: nat, p: Packet) returns (h': Hist)
    requires Inv(s, h) && Enabled(s, ReaderDeliver(k, p))
    ensures Inv(Apply(s, ReaderDeliver(k, p)), h')
    ensures h'.asked == h.asked && h'.delivered == h.delivered + {p}
  {
    var s' := Apply(s, ReaderDeliver(k, p));
    if p.ID() in s.conns[k].pending {
      PendingIsAlone(s, h, k, p.ID());
      var m := s.conns[k].pending[p.ID()];
      h' := KeepsFinish(s, h, k, p.ID(), s', s'.heap[m], h.delivered + {p});
    } else {
      h' := h.(delivered := h.delivered + {p});
      CellsStay(s, s, h, h', |s.heap|);
      ConnsStay(s, s, h, h', |s.heap|, -1);
      CallsStay(s, s, h, h', |s.heap|, -1);
      AskedStays(s, s, h, h');
    }
  }

  lemma KeepsTeardown(s: Client, h: Hist, k: nat, id: uint32, err: Option<CallError>) returns (h': Hist)
    requires Inv(s, h) && Enabled(s, TeardownOne(k, id, err))
    ensures Inv(Apply(s, TeardownOne(k, id, err)), h')
    ensures h'.asked == h.asked && h'.delivered == h.delivered
  {
    var s' := Apply(s, TeardownOne(k, id, err));
    PendingIsAlone(s, h, k, id);
    var m := s.conns[k].pending[id];
    assert ConnOk(s, h, k);
    assert At(s, h, m, Pending(k, id));
    assert CellOk(s, h, m);
    h' := KeepsFinish(s, h, k, id, s', s'.heap[m], h.delivered);
  }

  /** The history after a step: who asked for what, and which packets the readers have handed over. */
  lemma Keeps(s: Client, h: Hist, l: Step) returns (h': Hist)
    requires Inv(s, h) && Enabled(s, l)
    ensures Inv(Apply(s, l), h')
    ensures h'.asked == if l.Invoke? then h.asked + {l.req} else h.asked
    ensures h'.delivered == if l.ReaderDeliver? then h.delivered + {l.packet} else h.delivered
  {
    hide Inv;
    h' := h;
    match l
    case Invoke(req, mode) => h' := KeepsInvoke(s, h, req, mode);
    case Acquire(c, m) => h' := KeepsAcquire(s, h, c, m);
    case TrySend(c) => h' := KeepsTrySend(s, h, c);
    case EvictOldest(c) => h' := KeepsEvict(s, h, c);
    case Resend(c) => h' := KeepsResend(s, h, c);
    case Complete(c) => h' := KeepsComplete(s, h, c);
    case Expire(c) => KeepsExpire(s, h, c);
    case Cancel(m) => KeepsCancelFlag(s, h, m, Apply(s, l));
    case Connect => KeepsConnect(s, h);
    case WriterTake(k) => h' := KeepsTake(s, h, k);
    case WriterCheck(k) => h' := KeepsCheck(s, h, k);
    case WriterFile(k) => h' := KeepsFile(s, h, k);
    case WriterSweep(k, unvisited) => h' := KeepsSweep(s, h, k, unvisited);
    case WriterRecount(k) => KeepsMove(s, h, k, l);
    case WriterEncode(k) => KeepsMove(s, h, k, l);
    case WriterStop(k) => KeepsMove(s, h, k, l);
    case ReaderStop(k) => KeepsMove(s, h, k, l);
    case ReaderDeliver(k, p) => h' := KeepsDeliver(s, h, k, p);
    case TeardownOne(k, id, err) => h' := KeepsTeardown(s, h, k, id, err);
  }

  lemma KeepsMove(s: Client, h: Hist, k: nat, l: Step)
    requires Inv(s, h) && Enabled(s, l) && l in {WriterRecount(k), WriterEncode(k), WriterStop(k), ReaderStop(k)}
    ensures Inv(Apply(s, l), h)
  {
    assert ConnOk(s, h, k);
    KeepsConn(s, h, k, Apply(s, l));
  }

  lemma StartIsGood(codec: Codec, pendingRequests: nat)
    ensures Inv(Start(codec, pendingRequests), Hist([], {}, {}))
  {
  }
}
