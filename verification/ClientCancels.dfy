/**
 When a canceled flag can still make a call fail: from which states the client can go on, with no further cancel,
 to a call that fails as canceled.
 */
module ClientCancels {
  import opened Wrappers
  import opened Bytes
  import opened Encoding
  import opened ClientSteps
  import opened ClientSafety
  import opened ClientRuns
  import opened ClientOutcomes

  // ----- what can still happen

  /** Nobody cancels, and connections end with errors of their own. */
  predicate Quiet(l: Step) {
    !l.Cancel? && !(l.TeardownOne? && l.err == Some(Canceled))
  }

  predicate AllQuiet(run: seq<Step>) {
    forall l <- run :: Quiet(l)
  }

  ghost predicate Fails(s: Client) {
    exists c :: 0 <= c < |s.calls| && s.calls[c].phase == Finished(Failed(Canceled))
  }

  /** There is a way to go on, without another cancel, to a call that fails as canceled. */
  ghost predicate CanFail(s: Client) {
    exists run :: Legal(s, run) && AllQuiet(run) && Fails(After(s, run))
  }

  // ----- the same, said of the state

  ghost predicate IsWaiting(s: Client, m: Ref) {
    exists c :: 0 <= c < |s.calls| && s.calls[c].phase == Waiting(m)
  }

  predicate HasSeq(s: Client, m: Ref, id: uint32) {
    m < |s.heap| && s.heap[m].request.Some? && s.heap[m].request.value.ID() == id
  }

  /**
   Connection `k` reads no more replies, and its writer cannot but sweep away the canceled entry at `id`, or file another
   in its place: a result it has taken goes there unless its caller's time can still run out.
   */
  ghost predicate Displaces(s: Client, k: nat, id: uint32)
    requires k < |s.conns|
  {
    && s.conns[k].readerDone
    && match s.conns[k].writer
       case Filed(_, filed) => filed == id
       case Filing(x) => HasSeq(s, x, id)
       case Took(x) => HasSeq(s, x, id) && !s.heap[x].canceled && !s.heap[x].skipResponse && !IsWaiting(s, x)
       case _ => false
  }

  /** Connection `k` can complete `m`, which is canceled. */
  ghost predicate ReturnsAt(s: Client, k: nat, m: Ref)
    requires k < |s.conns|
  {
    var conn := s.conns[k];
    || conn.writer == Took(m)
    || (conn.writer == Filing(m) && (conn.readerDone ==> |conn.pending| <= 3 * s.pendingRequests))
    || (exists id :: FiledAt(conn, id, m) && !Displaces(s, k, id))
  }

  ghost predicate Returns(s: Client, m: Ref)
    requires m < |s.heap|
  {
    s.heap[m].done.Closed? || m in s.queue || exists k :: 0 <= k < |s.conns| && ReturnsAt(s, k, m)
  }

  /** The call is on its way to queue `m`, or waits for it with a chance that it is completed. */
  ghost predicate WillUse(s: Client, call: Call, m: Ref)
    requires m < |s.heap|
  {
    match call.phase
    case Ready => false
    case Finished(_) => false
    case Handed(_) => false
    case Waiting(x) => x == m && Returns(s, m)
    case sending => sending.m == m && !call.mode.Async?
  }

  ghost predicate InUse(s: Client, m: Ref)
    requires m < |s.heap|
  {
    exists c :: 0 <= c < |s.calls| && WillUse(s, s.calls[c], m)
  }

  /** A one-way send that will be given back when a writer sees that it is canceled. */
  ghost predicate GivenBack(s: Client, m: Ref)
    requires m < |s.heap|
  {
    s.heap[m].skipResponse && (m in s.queue || exists k :: 0 <= k < |s.conns| && s.conns[k].writer == Took(m))
  }

  /** `m` is in the pool, or may come to be there, or a call may come to find it canceled. */
  ghost predicate Usable(s: Client, m: Ref)
    requires m < |s.heap|
  {
    m in s.pool || InUse(s, m) || GivenBack(s, m)
  }

  ghost predicate Armed(s: Client) {
    Fails(s) || exists m :: 0 <= m < |s.heap| && s.heap[m].canceled && Usable(s, m)
  }

  // ----- an armed client can fail

  lemma FailsNow(s: Client)
    requires Fails(s)
    ensures CanFail(s)
  {
    assert Legal(s, []) && After(s, []) == s && AllQuiet([]);
  }

  lemma FailsLater(s: Client, l: Step)
    requires Enabled(s, l) && Quiet(l) && CanFail(Apply(s, l))
    ensures CanFail(s)
  {
    hide Enabled, Apply, Fails, Quiet;
    var run :| Legal(Apply(s, l), run) && AllQuiet(run) && Fails(After(Apply(s, l), run));
    Unmoved(s);
    OneMore(s, [], l);
    assert [] + [l] == [l];
    RunsChain(s, [l], run);
    assert AllQuiet([l] + run);
  }

  /** A new connection takes the oldest entry of the queue. */
  lemma TakenAway(s: Client, h: Hist) returns (t: Client, h': Hist)
    requires Inv(s, h) && s.queue != []
    ensures t == s.(queue := s.queue[1..], conns := s.conns + [Conn(map[], Took(s.queue[0]), false)])
    ensures Inv(t, h') && (CanFail(t) ==> CanFail(s))
  {
    InvGives(s, h);
    assert s.queue[0] in s.queue;
    var s1 := TakenOnce(s);
    t := Apply(s1, WriterTake(|s.conns|));
    hide Enabled, Apply, CanFail, Inv;
    h' := Keeps(s, h, Connect);
    h' := Keeps(s1, h', WriterTake(|s.conns|));
    if CanFail(t) {
      FailsLater(s1, WriterTake(|s.conns|));
      FailsLater(s, Connect);
    }
  }

  lemma TakenOnce(s: Client) returns (s1: Client)
    requires !s.panicked && s.queue != [] && s.queue[0] < |s.heap|
    ensures Enabled(s, Connect) && Apply(s, Connect) == s1 && Enabled(s1, WriterTake(|s.conns|))
    ensures Apply(s1, WriterTake(|s.conns|))
            == s.(queue := s.queue[1..], conns := s.conns + [Conn(map[], Took(s.queue[0]), false)])
  {
    s1 := Apply(s, Connect);
  }

  /** Call `c` waits for `m`, or `m` is a one-way send. */
  predicate Serves(s: Client, c: nat, m: Ref) {
    m < |s.heap| && (s.heap[m].skipResponse || (c < |s.calls| && s.calls[c].phase == Waiting(m)))
  }

  function OneWayRank(s: Client, m: Ref): nat {
    if m < |s.heap| && s.heap[m].skipResponse then 1 else 0
  }

  lemma TookCell(s: Client, h: Hist, k: nat, m: Ref)
    requires Inv(s, h) && k < |s.conns| && s.conns[k].writer == Took(m)
    ensures !s.panicked && m < |s.heap| && s.heap[m].done == if s.heap[m].skipResponse then NoChan else Open
  {
    assert ConnOk(s, h, k);
    assert CellOk(s, h, m);
  }

  lemma CheckFails(s: Client, k: nat, c: nat, m: Ref)
    requires k < |s.conns| && s.conns[k].writer == Took(m) && Serves(s, c, m) && s.heap[m].canceled && !s.panicked
    requires !s.heap[m].skipResponse && s.heap[m].done.Open?
    ensures Enabled(s, WriterCheck(k))
    ensures var t := Apply(s, WriterCheck(k)); Enabled(t, Complete(c)) && Fails(Apply(t, Complete(c)))
  {
    assert Apply(Apply(s, WriterCheck(k)), Complete(c)).calls[c].phase == Finished(Failed(Canceled));
  }

  lemma CheckGivesBack(s: Client, k: nat, m: Ref) returns (t: Client)
    requires k < |s.conns| && s.conns[k].writer == Took(m) && m < |s.heap| && s.heap[m].canceled && !s.panicked
    requires s.heap[m].done.NoChan?
    ensures Enabled(s, WriterCheck(k)) && t == Apply(s, WriterCheck(k))
    ensures m in t.pool && m < |t.heap| && t.heap[m].canceled && t.pendingRequests == s.pendingRequests
  {
    t := Apply(s, WriterCheck(k));
  }

  /** The writer that has taken `m` finds it canceled. */
  lemma TakenFails(s: Client, h: Hist, k: nat, c: nat, m: Ref)
    requires Inv(s, h) && s.pendingRequests > 0 && k < |s.conns| && s.conns[k].writer == Took(m)
    requires Serves(s, c, m) && s.heap[m].canceled
    ensures CanFail(s)
    decreases OneWayRank(s, m), 0
  {
    TookCell(s, h, k, m);
    hide Inv, CanFail, Enabled, Apply, Fails;
    if s.heap[m].skipResponse {
      var t := CheckGivesBack(s, k, m);
      var h' := Keeps(s, h, WriterCheck(k));
      PooledFails(t, h', m);
    } else {
      CheckFails(s, k, c, m);
      FailsNow(Apply(Apply(s, WriterCheck(k)), Complete(c)));
      FailsLater(Apply(s, WriterCheck(k)), Complete(c));
    }
    FailsLater(s, WriterCheck(k));
  }

  /** New connections take what is queued before it. */
  lemma QueuedFails(s: Client, h: Hist, c: nat, m: Ref)
    requires Inv(s, h) && s.pendingRequests > 0 && m in s.queue && Serves(s, c, m) && s.heap[m].canceled
    ensures CanFail(s)
    decreases OneWayRank(s, m), 1, |s.queue|
  {
    hide Inv, CanFail;
    var t, h' := TakenAway(s, h);
    if s.queue[0] == m {
      TakenFails(t, h', |s.conns|, c, m);
    } else {
      assert s.queue == [s.queue[0]] + s.queue[1..];
      QueuedFails(t, h', c, m);
    }
  }

  predicate OnItsWay(s: Client, c: nat, m: Ref) {
    && m < |s.heap| && c < |s.calls| && !s.calls[c].mode.Async?
    && s.calls[c].phase in {Sending(m), Evicting(m), Resending(m)}
  }

  lemma SendTurn(s: Client, c: nat, m: Ref) returns (l: Step, t: Client)
    requires OnItsWay(s, c, m) && !s.panicked && s.pendingRequests > 0 && s.queue == []
    requires s.calls[c].mode.OneWay? ==> s.heap[m].skipResponse
    ensures Quiet(l) && Enabled(s, l) && t == Apply(s, l) && t.pendingRequests == s.pendingRequests && t.heap == s.heap
    ensures if s.calls[c].phase.Evicting? then t.queue == [] && OnItsWay(t, c, m) && t.calls[c].phase.Resending?
            else m in t.queue && Serves(t, c, m)
  {
    l := match s.calls[c].phase case Sending(_) => TrySend(c) case Evicting(_) => EvictOldest(c) case _ => Resend(c);
    t := Apply(s, l);
  }

  /** A caller that is about to queue `m` does so, once there is room. */
  lemma SendingFails(s: Client, h: Hist, c: nat, m: Ref)
    requires Inv(s, h) && s.pendingRequests > 0 && OnItsWay(s, c, m) && s.heap[m].canceled
    ensures CanFail(s)
    decreases OneWayRank(s, m), 2, |s.queue|, if s.calls[c].phase.Evicting? then 1 else 0
  {
    if s.queue != [] {
      hide Inv, CanFail;
      var t, h' := TakenAway(s, h);
      SendingFails(t, h', c, m);
    } else {
      assert CallOk(s, h, c);
      hide Inv, CanFail, Enabled, Apply;
      var l, t := SendTurn(s, c, m);
      var h' := Keeps(s, h, l);
      if s.calls[c].phase.Evicting? {
        SendingFails(t, h', c, m);
      } else {
        QueuedFails(t, h', c, m);
      }
      FailsLater(s, l);
    }
  }

  lemma NewCall(s: Client, m: Ref) returns (ask: Step, get: Step, t: Client)
    requires !s.panicked && m in s.pool && m < |s.heap| && s.heap[m].canceled
    ensures Quiet(ask) && Enabled(s, ask) && Quiet(get) && Enabled(Apply(s, ask), get) && t == Apply(Apply(s, ask), get)
    ensures OnItsWay(t, |s.calls|, m) && t.heap[m].canceled && !t.heap[m].skipResponse && t.pendingRequests == s.pendingRequests
  {
    ask, get := Invoke(Rpc(RpcPacket(0, 0, 0, 16, Nil)), Sync(0)), Acquire(|s.calls|, m);
    t := Apply(Apply(s, ask), get);
  }

  /** A new call gets it from the pool. */
  lemma PooledFails(s: Client, h: Hist, m: Ref)
    requires Inv(s, h) && s.pendingRequests > 0 && m in s.pool && m < |s.heap| && s.heap[m].canceled
    ensures CanFail(s)
    decreases 0, 3
  {
    assert !s.panicked;
    hide Inv, CanFail, Enabled, Apply;
    var ask, get, t := NewCall(s, m);
    var h' := Keeps(s, h, ask);
    h' := Keeps(Apply(s, ask), h', get);
    SendingFails(t, h', |s.calls|, m);
    FailsLater(Apply(s, ask), get);
    FailsLater(s, ask);
  }

  lemma CompleteOnce(s: Client, c: nat, m: Ref) returns (t: Client)
    requires !s.panicked && c < |s.calls| && s.calls[c].phase == Waiting(m) && m < |s.heap| && s.heap[m].done.Closed?
    ensures Enabled(s, Complete(c)) && t == Apply(s, Complete(c)) && t.pendingRequests == s.pendingRequests
    ensures m in t.pool && m < |t.heap| && t.heap[m].canceled == s.heap[m].canceled
  {
    t := Apply(s, Complete(c));
  }

  /** A caller that has its answer gives the result back, flag and all. */
  lemma DoneFails(s: Client, h: Hist, c: nat, m: Ref)
    requires Inv(s, h) && s.pendingRequests > 0 && c < |s.calls| && s.calls[c].phase == Waiting(m)
    requires m < |s.heap| && s.heap[m].done.Closed? && s.heap[m].canceled
    ensures CanFail(s)
  {
    assert !s.panicked;
    hide Inv, CanFail, Enabled, Apply;
    var t := CompleteOnce(s, c, m);
    var h' := Keeps(s, h, Complete(c));
    PooledFails(t, h', m);
    FailsLater(s, Complete(c));
  }

  // ----- a filed entry whose connection can complete it

  /** Call `c` waits for `m`, which is canceled and filed, and not about to be displaced. */
  ghost predicate Standing(s: Client, k: nat, id: uint32, c: nat, m: Ref) {
    && !s.panicked && s.pendingRequests > 0 && m < |s.heap| && s.heap[m].canceled && s.heap[m].done.Open?
    && k < |s.conns| && FiledAt(s.conns[k], id, m) && !Displaces(s, k, id)
    && c < |s.calls| && s.calls[c].phase == Waiting(m)
  }

  lemma FiledCell(s: Client, h: Hist, k: nat, id: uint32, m: Ref)
    requires Inv(s, h) && k < |s.conns| && FiledAt(s.conns[k], id, m)
    ensures !s.panicked && m < |s.heap| && s.heap[m].done.Open? && HasSeq(s, m, id)
    ensures !WritesNow(s.conns[k], m)
  {
    assert ConnOk(s, h, k);
    assert At(s, h, m, Pending(k, id));
    assert CellOk(s, h, m);
  }

  lemma WriterCell(s: Client, h: Hist, k: nat)
    requires Inv(s, h) && k < |s.conns| && (s.conns[k].writer.Took? || s.conns[k].writer.Filing?)
    ensures var x := s.conns[k].writer.m;
            x < |s.heap| && s.heap[x].request.Some? && s.heap[x].done == if s.heap[x].skipResponse then NoChan else Open
  {
    assert ConnOk(s, h, k);
    assert CellOk(s, h, s.conns[k].writer.m);
  }

  function WriterRank(s: Client, k: nat): nat
    requires k < |s.conns|
  {
    match s.conns[k].writer
    case Took(x) => if x < |s.heap| && s.heap[x].canceled then 6 else 7
    case Filing(_) => 5
    case Filed(_, _) => 4
    case Swept(_) => 3
    case Stopped => 1
    case _ => 2
  }

  /** The writer's next step on its way to stopping. */
  ghost predicate Advances(s: Client, l: Step, k: nat, id: uint32, c: nat, m: Ref) {
    && Quiet(l) && Enabled(s, l) && Standing(Apply(s, l), k, id, c, m) && Apply(s, l).conns[k].readerDone
    && k < |s.conns| && WriterRank(Apply(s, l), k) < WriterRank(s, k)
  }

  lemma AdvancesTook(s: Client, k: nat, id: uint32, c: nat, m: Ref) returns (l: Step)
    requires Standing(s, k, id, c, m) && s.conns[k].readerDone && s.conns[k].writer.Took? && s.conns[k].writer.m != m
    requires var x := s.conns[k].writer.m;
             x < |s.heap| && s.heap[x].request.Some? && s.heap[x].done == if s.heap[x].skipResponse then NoChan else Open
    requires forall b :: 0 <= b < |s.calls| && s.calls[b].phase.Waiting? ==> s.calls[b].mode.Sync?
    ensures Advances(s, l, k, id, c, m)
  {
    var x := s.conns[k].writer.m;
    if s.heap[x].canceled || s.heap[x].skipResponse || !HasSeq(s, x, id) {
      l := WriterCheck(k);
    } else {
      var b :| 0 <= b < |s.calls| && s.calls[b].phase == Waiting(x);
      l := Expire(b);
    }
  }

  lemma AdvancesFiling(s: Client, k: nat, id: uint32, c: nat, m: Ref)
    requires Standing(s, k, id, c, m) && s.conns[k].readerDone && s.conns[k].writer.Filing?
    requires s.conns[k].writer.m < |s.heap| && s.heap[s.conns[k].writer.m].request.Some?
    ensures Advances(s, WriterFile(k), k, id, c, m)
  {
  }

  lemma AdvancesRest(s: Client, k: nat, id: uint32, c: nat, m: Ref) returns (l: Step)
    requires Standing(s, k, id, c, m) && s.conns[k].readerDone
    requires !s.conns[k].writer.Took? && !s.conns[k].writer.Filing? && !s.conns[k].writer.Stopped?
    ensures Advances(s, l, k, id, c, m)
  {
    l := match s.conns[k].writer
    case Filed(_, _) => WriterSweep(k, false)
    case Swept(_) => WriterRecount(k)
    case _ => WriterStop(k);
  }

  lemma WaitersAreSync(s: Client, h: Hist)
    requires Inv(s, h)
    ensures forall c :: 0 <= c < |s.calls| && s.calls[c].phase.Waiting? ==> s.calls[c].mode.Sync?
  {
    forall c | 0 <= c < |s.calls| && s.calls[c].phase.Waiting?
      ensures s.calls[c].mode.Sync?
    {
      assert CallOk(s, h, c);
    }
  }

  lemma Advancing(s: Client, h: Hist, k: nat, id: uint32, c: nat, m: Ref) returns (l: Step)
    requires Inv(s, h) && Standing(s, k, id, c, m) && s.conns[k].readerDone && !s.conns[k].writer.Stopped?
    ensures Advances(s, l, k, id, c, m)
  {
    FiledCell(s, h, k, id, m);
    WaitersAreSync(s, h);
    if s.conns[k].writer.Took? {
      WriterCell(s, h, k);
      hide Inv, Advances, Standing;
      l := AdvancesTook(s, k, id, c, m);
    } else if s.conns[k].writer.Filing? {
      WriterCell(s, h, k);
      hide Inv, Advances, Standing;
      AdvancesFiling(s, k, id, c, m);
      l := WriterFile(k);
    } else {
      hide Inv, Advances, Standing;
      l := AdvancesRest(s, k, id, c, m);
    }
  }

  /** With a reply, or at the end of the connection, the entry is completed. */
  lemma Finishing(s: Client, k: nat, id: uint32, c: nat, m: Ref) returns (l: Step, t: Client)
    requires Standing(s, k, id, c, m) && HasSeq(s, m, id) && (s.conns[k].readerDone ==> s.conns[k].writer.Stopped?)
    ensures Quiet(l) && Enabled(s, l) && t == Apply(s, l) && t.pendingRequests == s.pendingRequests && t.calls == s.calls
    ensures m < |t.heap| && t.heap[m].done.Closed? && t.heap[m].canceled
  {
    l := if s.conns[k].readerDone then TeardownOne(k, id, None) else ReaderDeliver(k, s.heap[m].request.value);
    t := Apply(s, l);
  }

  lemma FiledFails(s: Client, h: Hist, k: nat, id: uint32, c: nat, m: Ref)
    requires Inv(s, h) && Standing(s, k, id, c, m)
    ensures CanFail(s)
    decreases if s.conns[k].readerDone then WriterRank(s, k) else 0
  {
    FiledCell(s, h, k, id, m);
    hide Inv, CanFail, Enabled, Apply, HasSeq, Displaces, Quiet;
    if s.conns[k].readerDone && !s.conns[k].writer.Stopped? {
      var l := Advancing(s, h, k, id, c, m);
      var h' := Keeps(s, h, l);
      FiledFails(Apply(s, l), h', k, id, c, m);
      FailsLater(s, l);
    } else {
      var l, t := Finishing(s, k, id, c, m);
      var h' := Keeps(s, h, l);
      DoneFails(t, h', c, m);
      FailsLater(s, l);
    }
  }

  lemma FilesIt(s: Client, k: nat, c: nat, m: Ref)
    requires !s.panicked && s.pendingRequests > 0 && k < |s.conns| && s.conns[k].writer == Filing(m)
    requires s.conns[k].readerDone ==> |s.conns[k].pending| <= 3 * s.pendingRequests
    requires m < |s.heap| && s.heap[m].canceled && s.heap[m].done.Open? && s.heap[m].request.Some?
    requires c < |s.calls| && s.calls[c].phase == Waiting(m)
    ensures Enabled(s, WriterFile(k)) && Standing(Apply(s, WriterFile(k)), k, s.heap[m].request.value.ID(), c, m)
  {
  }

  lemma FilingFails(s: Client, h: Hist, k: nat, c: nat, m: Ref)
    requires Inv(s, h) && s.pendingRequests > 0 && k < |s.conns| && s.conns[k].writer == Filing(m)
    requires s.conns[k].readerDone ==> |s.conns[k].pending| <= 3 * s.pendingRequests
    requires m < |s.heap| && s.heap[m].canceled && c < |s.calls| && s.calls[c].phase == Waiting(m)
    ensures CanFail(s)
  {
    assert !s.panicked;
    assert ConnOk(s, h, k);
    WriterCell(s, h, k);
    hide Inv, CanFail, Enabled, Apply, Standing;
    FilesIt(s, k, c, m);
    var h' := Keeps(s, h, WriterFile(k));
    FiledFails(Apply(s, WriterFile(k)), h', k, s.heap[m].request.value.ID(), c, m);
    FailsLater(s, WriterFile(k));
  }

  lemma ReturnedFails(s: Client, h: Hist, c: nat, m: Ref)
    requires Inv(s, h) && s.pendingRequests > 0 && c < |s.calls| && s.calls[c].phase == Waiting(m)
    requires m < |s.heap| && s.heap[m].canceled && Returns(s, m)
    ensures CanFail(s)
  {
    hide Inv, CanFail, ReturnsAt;
    if s.heap[m].done.Closed? {
      DoneFails(s, h, c, m);
    } else if m in s.queue {
      QueuedFails(s, h, c, m);
    } else {
      var k :| 0 <= k < |s.conns| && ReturnsAt(s, k, m);
      ReturnedAtFails(s, h, k, c, m);
    }
  }

  lemma ReturnedAtFails(s: Client, h: Hist, k: nat, c: nat, m: Ref)
    requires Inv(s, h) && s.pendingRequests > 0 && c < |s.calls| && s.calls[c].phase == Waiting(m)
    requires m < |s.heap| && s.heap[m].canceled && k < |s.conns| && ReturnsAt(s, k, m)
    ensures CanFail(s)
  {
    hide Inv, CanFail;
    if s.conns[k].writer == Took(m) {
      TakenFails(s, h, k, c, m);
    } else if id :| FiledAt(s.conns[k], id, m) && !Displaces(s, k, id) {
      FiledCell(s, h, k, id, m);
      FiledFails(s, h, k, id, c, m);
    } else {
      FilingFails(s, h, k, c, m);
    }
  }

  /** Whatever armed the client, some way to go on ends with a call that fails as canceled. */
  lemma ArmedFails(s: Client, h: Hist)
    requires Inv(s, h) && s.pendingRequests > 0 && Armed(s)
    ensures CanFail(s)
  {
    hide Inv, CanFail, Returns, Fails;
    if Fails(s) {
      FailsNow(s);
    } else {
      var m :| 0 <= m < |s.heap| && s.heap[m].canceled && Usable(s, m);
      if m in s.pool {
        PooledFails(s, h, m);
      } else if InUse(s, m) {
        var c :| 0 <= c < |s.calls| && WillUse(s, s.calls[c], m);
        if s.calls[c].phase.Waiting? {
          ReturnedFails(s, h, c, m);
        } else {
          SendingFails(s, h, c, m);
        }
      } else if m in s.queue {
        QueuedFails(s, h, 0, m);
      } else {
        var k :| 0 <= k < |s.conns| && s.conns[k].writer == Took(m);
        TakenFails(s, h, k, 0, m);
      }
    }
  }

  // ----- an unarmed client stays so

  /** Whoever's error says canceled has the flag, which is never taken back. */
  ghost predicate FlagKept(s: Client) {
    forall m :: 0 <= m < |s.heap| && s.heap[m].error == Some(Canceled) ==> s.heap[m].canceled
  }

  predicate ByCaller(l: Step) {
    l.Invoke? || l.Acquire? || l.TrySend? || l.EvictOldest? || l.Resend? || l.Complete? || l.Expire? || l.Cancel?
  }

  lemma FlagStays(s: Client, l: Step)
    requires Enabled(s, l) && FlagKept(s) && !(l.TeardownOne? && l.err == Some(Canceled))
    ensures FlagKept(Apply(s, l))
  {
    if ByCaller(l) {
      FlagStaysCaller(s, l);
    } else {
      FlagStaysConnection(s, l);
    }
  }

  lemma FlagStaysCaller(s: Client, l: Step)
    requires Enabled(s, l) && FlagKept(s) && ByCaller(l)
    ensures FlagKept(Apply(s, l))
  {
    if l.TrySend? {
      FlagStaysSend(s, l.c);
    } else if l.EvictOldest? {
      FlagStaysEvict(s, l.c);
    } else {
      FlagStaysRest(s, l);
    }
  }

  lemma FlagStaysSend(s: Client, c: nat)
    requires Enabled(s, TrySend(c)) && FlagKept(s)
    ensures FlagKept(Apply(s, TrySend(c)))
  {
  }

  lemma FlagStaysEvict(s: Client, c: nat)
    requires Enabled(s, EvictOldest(c)) && FlagKept(s)
    ensures FlagKept(Apply(s, EvictOldest(c)))
  {
  }

  lemma FlagStaysRest(s: Client, l: Step)
    requires Enabled(s, l) && FlagKept(s) && ByCaller(l) && !l.TrySend? && !l.EvictOldest?
    ensures FlagKept(Apply(s, l))
  {
  }

  lemma FlagStaysConnection(s: Client, l: Step)
    requires Enabled(s, l) && FlagKept(s) && !ByCaller(l) && !(l.TeardownOne? && l.err == Some(Canceled))
    ensures FlagKept(Apply(s, l))
  {
  }

  lemma CompletesUnfailed(s: Client, c: nat)
    requires Enabled(s, Complete(c)) && FlagKept(s) && !Armed(s)
    ensures !Fails(Apply(s, Complete(c)))
  {
    var m := s.calls[c].phase.m;
    assert s.heap[m].done.Closed?;
    assert WillUse(s, s.calls[c], m);
    assert !s.heap[m].canceled;
    hide Armed, Usable, InUse, WillUse, Returns;
    OthersUnfailed(s, c);
  }

  lemma OthersUnfailed(s: Client, c: nat)
    requires Enabled(s, Complete(c)) && !Fails(s) && s.heap[s.calls[c].phase.m].error != Some(Canceled)
    ensures !Fails(Apply(s, Complete(c)))
  {
  }

  lemma Unfailed(s: Client, l: Step)
    requires Enabled(s, l) && !l.Complete? && !Fails(s)
    ensures !Fails(Apply(s, l))
  {
    if ByCaller(l) {
      UnfailedCaller(s, l);
    } else {
      CallsStayPut(s, l);
    }
  }

  lemma UnfailedCaller(s: Client, l: Step)
    requires Enabled(s, l) && ByCaller(l) && !l.Complete? && !Fails(s)
    ensures !Fails(Apply(s, l))
  {
    if l.TrySend? || l.Resend? {
      UnfailedSend(s, l);
    } else {
      UnfailedRest(s, l);
    }
  }

  lemma UnfailedSend(s: Client, l: Step)
    requires Enabled(s, l) && (l.TrySend? || l.Resend?) && !Fails(s)
    ensures !Fails(Apply(s, l))
  {
  }

  lemma UnfailedRest(s: Client, l: Step)
    requires Enabled(s, l) && ByCaller(l) && !l.TrySend? && !l.Resend? && !l.Complete? && !Fails(s)
    ensures !Fails(Apply(s, l))
  {
  }

  predicate Sends(call: Call, m: Ref) {
    call.phase in {Sending(m), Evicting(m), Resending(m)}
  }

  /** No step can give `m` back, queue it as a one-way send, or make a call wait for it. */
  ghost predicate Resting(s: Client, m: Ref) {
    && m < |s.heap| && m !in s.pool
    && (forall c :: 0 <= c < |s.calls| && Sends(s.calls[c], m) ==> s.calls[c].mode.Async? && !s.heap[m].skipResponse)
    && (forall c :: 0 <= c < |s.calls| && s.calls[c].phase == Waiting(m) ==> !s.heap[m].done.Closed?)
    && (forall i :: 0 <= i < |s.queue| && s.queue[i] == m ==> !s.heap[m].skipResponse && s.heap[m].done.Open?)
    && (forall k :: 0 <= k < |s.conns| && s.conns[k].writer == Took(m) ==> !s.heap[m].skipResponse && s.heap[m].done.Open?)
  }

  lemma UnusedRests(s: Client, h: Hist, m: Ref)
    requires Inv(s, h) && m < |s.heap| && !Usable(s, m)
    ensures Resting(s, m)
  {
    forall c | 0 <= c < |s.calls|
      ensures Sends(s.calls[c], m) ==> s.calls[c].mode.Async? && !s.heap[m].skipResponse
      ensures s.calls[c].phase == Waiting(m) ==> !s.heap[m].done.Closed?
    {
      assert !WillUse(s, s.calls[c], m);
      assert CallOk(s, h, c);
    }
    forall i | 0 <= i < |s.queue| && s.queue[i] == m
      ensures !s.heap[m].skipResponse && s.heap[m].done.Open?
    {
      assert At(s, h, s.queue[i], Queued) && CellOk(s, h, m);
    }
    forall k | 0 <= k < |s.conns| && s.conns[k].writer == Took(m)
      ensures !s.heap[m].skipResponse && s.heap[m].done.Open?
    {
      TookCell(s, h, k, m);
    }
  }

  /** Nothing new can come to use `m`. */
  ghost predicate Spared(s: Client, s': Client, m: Ref) {
    && m < |s'.heap| && m !in s'.pool && !GivenBack(s', m)
    && (forall c :: 0 <= c < |s'.calls| && Sends(s'.calls[c], m) ==> s'.calls[c].mode.Async?)
    && (forall c :: 0 <= c < |s'.calls| && s'.calls[c].phase == Waiting(m) ==> c < |s.calls| && s.calls[c].phase == Waiting(m))
  }

  lemma SparedByTry(s: Client, c: nat, m: Ref)
    requires Resting(s, m) && Enabled(s, TrySend(c))
    ensures Spared(s, Apply(s, TrySend(c)), m)
  {
    assert Sends(s.calls[c], s.calls[c].phase.m);
  }

  lemma SparedByResend(s: Client, c: nat, m: Ref)
    requires Resting(s, m) && Enabled(s, Resend(c))
    ensures Spared(s, Apply(s, Resend(c)), m)
  {
    assert Sends(s.calls[c], s.calls[c].phase.m);
  }

  lemma SparedByEvict(s: Client, c: nat, m: Ref)
    requires Resting(s, m) && Enabled(s, EvictOldest(c))
    ensures Spared(s, Apply(s, EvictOldest(c)), m)
  {
    assert Sends(s.calls[c], s.calls[c].phase.m);
  }

  lemma SparedByComplete(s: Client, c: nat, m: Ref)
    requires Resting(s, m) && Enabled(s, Complete(c))
    ensures Spared(s, Apply(s, Complete(c)), m)
  {
  }

  lemma SparedByOther(s: Client, l: Step, m: Ref)
    requires Resting(s, m) && Enabled(s, l) && (l.Invoke? || l.Acquire? || l.Expire?)
    ensures Spared(s, Apply(s, l), m)
  {
  }

  lemma SparedByCheck(s: Client, k: nat, m: Ref)
    requires Resting(s, m) && Enabled(s, WriterCheck(k))
    ensures Spared(s, Apply(s, WriterCheck(k)), m)
  {
  }

  lemma SparedByMove(s: Client, l: Step, m: Ref)
    requires Resting(s, m) && Enabled(s, l)
    requires l.Connect? || l.WriterTake? || l.WriterFile? || l.WriterSweep? || l.WriterRecount? || l.WriterEncode? || l.WriterStop?
    ensures Spared(s, Apply(s, l), m)
  {
  }

  lemma SparedByReader(s: Client, l: Step, m: Ref)
    requires Resting(s, m) && Enabled(s, l) && (l.ReaderDeliver? || l.ReaderStop? || l.TeardownOne?)
    ensures Spared(s, Apply(s, l), m)
  {
  }

  lemma StaysSpared(s: Client, l: Step, m: Ref)
    requires Resting(s, m) && Enabled(s, l) && Quiet(l)
    ensures Spared(s, Apply(s, l), m)
  {
    hide Resting, Spared, Enabled, Apply;
    match l
    case TrySend(c) => SparedByTry(s, c, m);
    case Resend(c) => SparedByResend(s, c, m);
    case EvictOldest(c) => SparedByEvict(s, c, m);
    case Complete(c) => SparedByComplete(s, c, m);
    case WriterCheck(k) => SparedByCheck(s, k, m);
    case ReaderDeliver(_, _) => SparedByReader(s, l, m);
    case ReaderStop(_) => SparedByReader(s, l, m);
    case TeardownOne(_, _, _) => SparedByReader(s, l, m);
    case Invoke(_, _) => SparedByOther(s, l, m);
    case Acquire(_, _) => SparedByOther(s, l, m);
    case Expire(_) => SparedByOther(s, l, m);
    case _ => SparedByMove(s, l, m);
  }

  /** What matters about the result a connection's writer has in hand is as it was. */
  ghost predicate WriterKept(s: Client, s': Client, k: nat)
    requires k < |s.conns|
  {
    var w := s.conns[k].writer;
    w.Took? || w.Filing? ==>
      && w.m < |s.heap| <= |s'.heap| && s'.heap[w.m].request == s.heap[w.m].request
      && (!s.heap[w.m].canceled && !s.heap[w.m].skipResponse && !IsWaiting(s, w.m) ==>
            !s'.heap[w.m].canceled && !s'.heap[w.m].skipResponse && !IsWaiting(s', w.m))
  }

  /** Then what the connection could not complete it still cannot. */
  lemma StaysStuck(s: Client, s': Client, k: nat, m: Ref)
    requires k < |s.conns| && k < |s'.conns| && s'.conns[k] == s.conns[k] && s'.pendingRequests == s.pendingRequests
    requires WriterKept(s, s', k) && !ReturnsAt(s, k, m)
    ensures !ReturnsAt(s', k, m)
  {
    forall id | FiledAt(s'.conns[k], id, m)
      ensures Displaces(s', k, id)
    {
      assert FiledAt(s.conns[k], id, m);
    }
  }

  /** No caller and no other connection works with `x`. */
  ghost predicate InHand(s: Client, x: Ref) {
    && x < |s.heap| && x !in s.pool && x !in s.queue && !s.heap[x].done.Closed?
    && forall c :: 0 <= c < |s.calls| ==> !Sends(s.calls[c], x)
  }

  lemma WriterInHand(s: Client, h: Hist, k: nat)
    requires Inv(s, h) && k < |s.conns| && (s.conns[k].writer.Took? || s.conns[k].writer.Filing?)
    ensures InHand(s, s.conns[k].writer.m)
  {
    assert ConnOk(s, h, k);
    var x := s.conns[k].writer.m;
    assert At(s, h, x, Writing(k)) && CellOk(s, h, x);
    forall c | 0 <= c < |s.calls|
      ensures !Sends(s.calls[c], x)
    {
      assert CallOk(s, h, c);
    }
    forall i | 0 <= i < |s.queue|
      ensures s.queue[i] != x
    {
      assert At(s, h, s.queue[i], Queued);
    }
  }

  lemma KeptBySend(s: Client, l: Step, k: nat)
    requires Enabled(s, l) && (l.TrySend? || l.Resend?) && k < |s.conns|
    requires s.conns[k].writer.Took? || s.conns[k].writer.Filing? ==> InHand(s, s.conns[k].writer.m)
    ensures WriterKept(s, Apply(s, l), k)
  {
    assert Sends(s.calls[l.c], s.calls[l.c].phase.m);
  }

  lemma KeptByEvict(s: Client, b: nat, k: nat)
    requires Enabled(s, EvictOldest(b)) && k < |s.conns|
    requires s.conns[k].writer.Took? || s.conns[k].writer.Filing? ==> InHand(s, s.conns[k].writer.m)
    ensures WriterKept(s, Apply(s, EvictOldest(b)), k)
  {
  }

  lemma KeptByComplete(s: Client, b: nat, k: nat)
    requires Enabled(s, Complete(b)) && k < |s.conns|
    requires s.conns[k].writer.Took? || s.conns[k].writer.Filing? ==> InHand(s, s.conns[k].writer.m)
    ensures WriterKept(s, Apply(s, Complete(b)), k)
  {
  }

  lemma KeptByOther(s: Client, l: Step, k: nat)
    requires Enabled(s, l) && (l.Invoke? || l.Acquire? || l.Expire?) && k < |s.conns|
    requires s.conns[k].writer.Took? || s.conns[k].writer.Filing? ==> InHand(s, s.conns[k].writer.m)
    ensures WriterKept(s, Apply(s, l), k)
  {
  }

  lemma KeptByCaller(s: Client, l: Step, k: nat)
    requires Enabled(s, l) && ByCaller(l) && Quiet(l) && k < |s.conns|
    requires s.conns[k].writer.Took? || s.conns[k].writer.Filing? ==> InHand(s, s.conns[k].writer.m)
    ensures WriterKept(s, Apply(s, l), k)
  {
    hide Enabled, Apply, InHand, WriterKept;
    match l
    case TrySend(_) => KeptBySend(s, l, k);
    case Resend(_) => KeptBySend(s, l, k);
    case EvictOldest(b) => KeptByEvict(s, b, k);
    case Complete(b) => KeptByComplete(s, b, k);
    case _ => KeptByOther(s, l, k);
  }

  /** `m` is open and not about to be completed. */
  ghost predicate Pended(s: Client, c: nat, m: Ref) {
    && m < |s.heap| && s.heap[m].canceled && c < |s.calls| && s.calls[c].phase == Waiting(m)
    && Private(s, c, m) && !Returns(s, m)
  }

  lemma OpenForSend(s: Client, l: Step, c: nat, m: Ref)
    requires Enabled(s, l) && (l.TrySend? || l.Resend?) && Pended(s, c, m)
    ensures var s' := Apply(s, l); s'.conns == s.conns && |s.heap| == |s'.heap| && s'.pendingRequests == s.pendingRequests
                                   && !s'.heap[m].done.Closed? && m !in s'.queue
  {
    assert Sends(s.calls[l.c], s.calls[l.c].phase.m);
  }

  lemma OpenForEvict(s: Client, b: nat, c: nat, m: Ref)
    requires Enabled(s, EvictOldest(b)) && Pended(s, c, m)
    ensures var s' := Apply(s, EvictOldest(b));
            && s'.conns == s.conns && |s.heap| == |s'.heap| && s'.pendingRequests == s.pendingRequests
            && !s'.heap[m].done.Closed? && m !in s'.queue
  {
  }

  lemma OpenForCaller(s: Client, l: Step, c: nat, m: Ref)
    requires Enabled(s, l) && ByCaller(l) && !l.TrySend? && !l.EvictOldest? && !l.Resend? && Pended(s, c, m)
    ensures var s' := Apply(s, l); s'.conns == s.conns && |s.heap| <= |s'.heap| && s'.pendingRequests == s.pendingRequests
                                   && !s'.heap[m].done.Closed? && m !in s'.queue
  {
  }

  lemma StuckByCaller(s: Client, h: Hist, l: Step, c: nat, m: Ref)
    requires Inv(s, h) && Enabled(s, l) && Quiet(l) && ByCaller(l) && Pended(s, c, m)
    ensures m < |Apply(s, l).heap| && !Returns(Apply(s, l), m)
  {
    var s' := Apply(s, l);
    hide Inv, Enabled, Apply, WriterKept, InHand, ReturnsAt, Quiet, Private;
    if l.TrySend? || l.Resend? {
      OpenForSend(s, l, c, m);
    } else if l.EvictOldest? {
      OpenForEvict(s, l.c, c, m);
    } else {
      OpenForCaller(s, l, c, m);
    }
    forall k | 0 <= k < |s'.conns|
      ensures !ReturnsAt(s', k, m)
    {
      if s.conns[k].writer.Took? || s.conns[k].writer.Filing? {
        WriterInHand(s, h, k);
      }
      KeptByCaller(s, l, k);
      StaysStuck(s, s', k, m);
    }
  }

  // ----- steps of connections

  /** The one result a connection's step changes. */
  function Changed(s: Client, l: Step): Ref
    requires Enabled(s, l)
  {
    match l
    case WriterCheck(k) => s.conns[k].writer.m
    case ReaderDeliver(k, p) => if p.ID() in s.conns[k].pending then s.conns[k].pending[p.ID()] else |s.heap|
    case TeardownOne(k, id, _) => s.conns[k].pending[id]
    case _ => |s.heap|
  }

  /** Which is not in another writer's hands. */
  lemma ChangedIsOwn(s: Client, h: Hist, l: Step, k: nat)
    requires Inv(s, h) && Enabled(s, l) && !ByCaller(l) && !l.Connect? && k < |s.conns| && k != l.k
    requires s.conns[k].writer.Took? || s.conns[k].writer.Filing?
    ensures Changed(s, l) != s.conns[k].writer.m < |s.heap|
  {
    assert ConnOk(s, h, k) && ConnOk(s, h, l.k);
    assert At(s, h, s.conns[k].writer.m, Writing(k));
    if l.TeardownOne? {
      assert At(s, h, s.conns[l.k].pending[l.id], Pending(l.k, l.id));
    } else if l.ReaderDeliver? && l.packet.ID() in s.conns[l.k].pending {
      assert At(s, h, s.conns[l.k].pending[l.packet.ID()], Pending(l.k, l.packet.ID()));
    }
  }

  /** A connection other than that of the step. */
  ghost predicate Elsewhere(s: Client, l: Step, k: nat)
    requires Enabled(s, l)
  {
    && !ByCaller(l) && k < |s.conns| && (!l.Connect? ==> k != l.k)
    && (s.conns[k].writer.Took? || s.conns[k].writer.Filing? ==> Changed(s, l) != s.conns[k].writer.m < |s.heap|)
  }

  ghost predicate LeftAlone(s: Client, s': Client, k: nat)
    requires k < |s.conns|
  {
    WriterKept(s, s', k) && k < |s'.conns| && s'.conns[k] == s.conns[k] && s'.pendingRequests == s.pendingRequests
  }

  lemma KeptByCheck(s: Client, l: Step, k: nat)
    requires Enabled(s, l) && Elsewhere(s, l, k) && l.WriterCheck?
    ensures LeftAlone(s, Apply(s, l), k)
  {
  }

  lemma KeptByEnd(s: Client, l: Step, k: nat)
    requires Enabled(s, l) && Elsewhere(s, l, k) && (l.ReaderDeliver? || l.TeardownOne?)
    ensures LeftAlone(s, Apply(s, l), k)
  {
  }

  lemma KeptByMove(s: Client, l: Step, k: nat)
    requires Enabled(s, l) && Elsewhere(s, l, k) && !l.WriterCheck? && !l.ReaderDeliver? && !l.TeardownOne?
    ensures LeftAlone(s, Apply(s, l), k)
  {
  }

  lemma OthersKept(s: Client, l: Step, k: nat)
    requires Enabled(s, l) && Elsewhere(s, l, k)
    ensures LeftAlone(s, Apply(s, l), k)
  {
    hide Enabled, Apply, LeftAlone;
    match l
    case WriterCheck(_) => KeptByCheck(s, l, k);
    case ReaderDeliver(_, _) => KeptByEnd(s, l, k);
    case TeardownOne(_, _, _) => KeptByEnd(s, l, k);
    case _ => KeptByMove(s, l, k);
  }

  lemma OwnByCheck(s: Client, k: nat, m: Ref)
    requires Enabled(s, WriterCheck(k)) && m < |s.heap| && !ReturnsAt(s, k, m)
    ensures !ReturnsAt(Apply(s, WriterCheck(k)), k, m)
  {
    var s' := Apply(s, WriterCheck(k));
    forall id | FiledAt(s'.conns[k], id, m)
      ensures Displaces(s', k, id)
    {
      assert FiledAt(s.conns[k], id, m);
    }
  }

  lemma OwnByMove(s: Client, l: Step, m: Ref)
    requires Enabled(s, l) && (l.WriterTake? || l.WriterRecount? || l.WriterEncode? || l.WriterStop?)
    requires m < |s.heap| && m !in s.queue && !ReturnsAt(s, l.k, m)
    ensures !ReturnsAt(Apply(s, l), l.k, m)
  {
    var s' := Apply(s, l);
    forall id
      ensures !FiledAt(s'.conns[l.k], id, m)
    {
      assert !Displaces(s, l.k, id) && !FiledAt(s.conns[l.k], id, m);
    }
  }

  lemma OwnByFile(s: Client, k: nat, m: Ref)
    requires Enabled(s, WriterFile(k)) && !Apply(s, WriterFile(k)).panicked
    requires m < |s.heap| && s.heap[m].canceled && !ReturnsAt(s, k, m)
    requires s.conns[k].writer == Filing(m) ==> forall id :: !FiledAt(s.conns[k], id, m)
    ensures !ReturnsAt(Apply(s, WriterFile(k)), k, m)
  {
    var s' := Apply(s, WriterFile(k));
    forall id | FiledAt(s'.conns[k], id, m)
      ensures Displaces(s', k, id)
    {
      assert FiledAt(s.conns[k], id, m) ==> s.conns[k].writer != Filing(m) && Displaces(s, k, id);
    }
  }

  lemma OwnBySweep(s: Client, k: nat, unvisited: bool, m: Ref)
    requires Enabled(s, WriterSweep(k, unvisited)) && m < |s.heap| && s.heap[m].canceled && !ReturnsAt(s, k, m)
    ensures !ReturnsAt(Apply(s, WriterSweep(k, unvisited)), k, m)
  {
    var conn, s' := s.conns[k], Apply(s, WriterSweep(k, unvisited));
    forall id
      ensures !FiledAt(s'.conns[k], id, m)
    {
      assert FiledAt(conn, id, m) ==> AnyCanceled(s, conn.pending) && Displaces(s, k, id);
    }
  }

  lemma OwnByEnd(s: Client, l: Step, m: Ref)
    requires Enabled(s, l) && (l.ReaderDeliver? || l.TeardownOne?) && m < |s.heap| && !ReturnsAt(s, l.k, m)
    ensures !ReturnsAt(Apply(s, l), l.k, m)
  {
    var s' := Apply(s, l);
    forall id
      ensures !FiledAt(s'.conns[l.k], id, m)
    {
      assert !Displaces(s, l.k, id) && !FiledAt(s.conns[l.k], id, m);
    }
  }

  lemma OwnByReaderStop(s: Client, k: nat, m: Ref)
    requires Enabled(s, ReaderStop(k)) && m < |s.heap| && !ReturnsAt(s, k, m)
    ensures !ReturnsAt(Apply(s, ReaderStop(k)), k, m)
  {
    var s' := Apply(s, ReaderStop(k));
    forall id | FiledAt(s'.conns[k], id, m)
      ensures Displaces(s', k, id)
    {
      assert FiledAt(s.conns[k], id, m);
    }
  }

  lemma OwnByConnect(s: Client, m: Ref)
    requires Enabled(s, Connect)
    ensures var s' := Apply(s, Connect); |s'.conns| == |s.conns| + 1 && !ReturnsAt(s', |s.conns|, m)
  {
  }

  lemma OwnStuck(s: Client, h: Hist, l: Step, c: nat, m: Ref)
    requires Inv(s, h) && Enabled(s, l) && !ByCaller(l) && !l.Connect? && !Apply(s, l).panicked && Pended(s, c, m)
    ensures !ReturnsAt(Apply(s, l), l.k, m)
  {
    assert !ReturnsAt(s, l.k, m);
    forall id | FiledAt(s.conns[l.k], id, m)
      ensures !WritesNow(s.conns[l.k], m)
    {
      FiledCell(s, h, l.k, id, m);
    }
    hide Inv, ReturnsAt, Private, Apply, Enabled;
    match l
    case WriterCheck(k) => OwnByCheck(s, k, m);
    case WriterFile(k) => OwnByFile(s, k, m);
    case WriterSweep(k, unvisited) => OwnBySweep(s, k, unvisited, m);
    case ReaderDeliver(_, _) => OwnByEnd(s, l, m);
    case TeardownOne(_, _, _) => OwnByEnd(s, l, m);
    case ReaderStop(k) => OwnByReaderStop(s, k, m);
    case _ => OwnByMove(s, l, m);
  }

  lemma OpenForCheck(s: Client, k: nat, m: Ref)
    requires Enabled(s, WriterCheck(k)) && m < |s.heap| && !Returns(s, m)
    ensures var s' := Apply(s, WriterCheck(k)); |s'.heap| == |s.heap| && !s'.heap[m].done.Closed? && m !in s'.queue
                                                && |s'.conns| == |s.conns|
  {
    assert !ReturnsAt(s, k, m);
  }

  lemma OpenForEnd(s: Client, l: Step, m: Ref)
    requires Enabled(s, l) && (l.ReaderDeliver? || l.TeardownOne?) && m < |s.heap| && !Returns(s, m)
    ensures var s' := Apply(s, l); |s'.heap| == |s.heap| && !s'.heap[m].done.Closed? && m !in s'.queue && |s'.conns| == |s.conns|
  {
    assert !ReturnsAt(s, l.k, m);
    var id := if l.ReaderDeliver? then l.packet.ID() else l.id;
    assert !FiledAt(s.conns[l.k], id, m) || Displaces(s, l.k, id);
  }

  lemma OpenForMove(s: Client, l: Step, m: Ref)
    requires Enabled(s, l) && !ByCaller(l) && !l.Connect? && !l.WriterCheck? && !l.ReaderDeliver? && !l.TeardownOne?
    requires m < |s.heap| && !Returns(s, m)
    ensures var s' := Apply(s, l); |s'.heap| == |s.heap| && !s'.heap[m].done.Closed? && m !in s'.queue && |s'.conns| == |s.conns|
  {
  }

  lemma StuckByConnection(s: Client, h: Hist, l: Step, c: nat, m: Ref)
    requires Inv(s, h) && Enabled(s, l) && !ByCaller(l) && !l.Connect? && !Apply(s, l).panicked && Pended(s, c, m)
    ensures m < |Apply(s, l).heap| && !Returns(Apply(s, l), m)
  {
    var s' := Apply(s, l);
    hide Inv, Enabled, Apply, WriterKept, ReturnsAt, Private;
    match l {
      case WriterCheck(k) => OpenForCheck(s, k, m);
      case ReaderDeliver(_, _) => OpenForEnd(s, l, m);
      case TeardownOne(_, _, _) => OpenForEnd(s, l, m);
      case _ => OpenForMove(s, l, m);
    }
    forall k | 0 <= k < |s'.conns|
      ensures !ReturnsAt(s', k, m)
    {
      if k == l.k {
        OwnStuck(s, h, l, c, m);
      } else {
        OtherStuck(s, h, l, k, m);
      }
    }
  }

  lemma OthersAreElsewhere(s: Client, h: Hist, l: Step, k: nat)
    requires Inv(s, h) && Enabled(s, l) && !ByCaller(l) && k < |s.conns| && (!l.Connect? ==> k != l.k)
    ensures Elsewhere(s, l, k)
  {
    if s.conns[k].writer.Took? || s.conns[k].writer.Filing? {
      if l.Connect? {
        WriterCell(s, h, k);
      } else {
        ChangedIsOwn(s, h, l, k);
      }
    }
  }

  lemma OtherStuck(s: Client, h: Hist, l: Step, k: nat, m: Ref)
    requires Inv(s, h) && Enabled(s, l) && !ByCaller(l) && k < |s.conns| && (!l.Connect? ==> k != l.k) && !ReturnsAt(s, k, m)
    ensures k < |Apply(s, l).conns| && !ReturnsAt(Apply(s, l), k, m)
  {
    hide Inv, Enabled, Apply, Elsewhere, WriterKept, ReturnsAt;
    OthersAreElsewhere(s, h, l, k);
    OthersKept(s, l, k);
    StaysStuck(s, Apply(s, l), k, m);
  }

  lemma StuckByConnect(s: Client, h: Hist, m: Ref)
    requires Inv(s, h) && Enabled(s, Connect) && m < |s.heap| && !Returns(s, m)
    ensures m < |Apply(s, Connect).heap| && !Returns(Apply(s, Connect), m)
  {
    var s' := Apply(s, Connect);
    OwnByConnect(s, m);
    forall k | 0 <= k < |s.conns|
      ensures !ReturnsAt(s', k, m)
    {
      OtherStuck(s, h, Connect, k, m);
    }
  }

  /** What a caller waits for in vain stays so. */
  lemma StaysPended(s: Client, h: Hist, l: Step, c: nat, m: Ref)
    requires Inv(s, h) && Enabled(s, l) && Quiet(l) && !Apply(s, l).panicked && Pended(s, c, m)
    ensures m < |Apply(s, l).heap| && !Returns(Apply(s, l), m)
  {
    hide Inv, Enabled, Apply, Returns, Private;
    if ByCaller(l) {
      StuckByCaller(s, h, l, c, m);
    } else if l.Connect? {
      StuckByConnect(s, h, m);
    } else {
      StuckByConnection(s, h, l, c, m);
    }
  }

  /** A canceled result that cannot be used again never can. */
  lemma StaysUnused(s: Client, h: Hist, l: Step, m: Ref)
    requires Inv(s, h) && Enabled(s, l) && Quiet(l) && !Apply(s, l).panicked
    requires m < |s.heap| && s.heap[m].canceled && !Usable(s, m)
    ensures m < |Apply(s, l).heap| && !Usable(Apply(s, l), m)
  {
    var s' := Apply(s, l);
    UnusedRests(s, h, m);
    hide Inv, Enabled, Apply, Returns, Private, Resting, GivenBack, Quiet;
    StaysSpared(s, l, m);
    forall c | 0 <= c < |s'.calls|
      ensures !WillUse(s', s'.calls[c], m)
    {
      if s'.calls[c].phase == Waiting(m) {
        assert !WillUse(s, s.calls[c], m);
        AwaitedIsPrivate(s, h, c);
        StaysPended(s, h, l, c, m);
      } else {
        assert Sends(s'.calls[c], m) ==> s'.calls[c].mode.Async?;
      }
    }
  }

  /** A caller whose time has run out gives up its result for good. */
  lemma ExpiredIsUnused(s: Client, h: Hist, c: nat)
    requires Inv(s, h) && Enabled(s, Expire(c))
    ensures !Usable(Apply(s, Expire(c)), s.calls[c].phase.m)
  {
    AwaitedIsPrivate(s, h, c);
    hide Inv, Returns;
    GivenUp(s, c);
  }

  lemma GivenUp(s: Client, c: nat)
    requires Enabled(s, Expire(c)) && Private(s, c, s.calls[c].phase.m)
    ensures !Usable(Apply(s, Expire(c)), s.calls[c].phase.m)
  {
    var m, s' := s.calls[c].phase.m, Apply(s, Expire(c));
    forall x | 0 <= x < |s'.calls|
      ensures !WillUse(s', s'.calls[x], m)
    {
      assert x != c ==> !Uses(s.calls[x].phase, m);
    }
  }

  lemma NewFlags(s: Client, l: Step, m: Ref)
    requires Enabled(s, l) && Quiet(l) && m < |Apply(s, l).heap| && Apply(s, l).heap[m].canceled
    ensures (m < |s.heap| && s.heap[m].canceled) || (l.Expire? && m == s.calls[l.c].phase.m)
  {
    if l.Acquire? || l.Expire? {
      FlagsByCall(s, l, m);
    } else if ByCaller(l) {
      FlagsByCaller(s, l, m);
    } else {
      FlagsByConnection(s, l, m);
    }
  }

  lemma FlagsByCall(s: Client, l: Step, m: Ref)
    requires Enabled(s, l) && (l.Acquire? || l.Expire?) && m < |Apply(s, l).heap| && Apply(s, l).heap[m].canceled
    ensures (m < |s.heap| && s.heap[m].canceled) || (l.Expire? && m == s.calls[l.c].phase.m)
  {
  }

  lemma FlagsByCaller(s: Client, l: Step, m: Ref)
    requires Enabled(s, l) && (l.Invoke? || l.TrySend? || l.EvictOldest? || l.Resend? || l.Complete?)
    requires m < |Apply(s, l).heap| && Apply(s, l).heap[m].canceled
    ensures m < |s.heap| && s.heap[m].canceled
  {
  }

  lemma FlagsByConnection(s: Client, l: Step, m: Ref)
    requires Enabled(s, l) && !ByCaller(l) && m < |Apply(s, l).heap| && Apply(s, l).heap[m].canceled
    ensures m < |s.heap| && s.heap[m].canceled
  {
  }

  /** Without a cancel nothing arms the client. */
  lemma StaysUnarmed(s: Client, h: Hist, l: Step)
    requires Inv(s, h) && Enabled(s, l) && Quiet(l) && !Apply(s, l).panicked && FlagKept(s) && !Armed(s)
    ensures !Armed(Apply(s, l)) && FlagKept(Apply(s, l))
  {
    var s' := Apply(s, l);
    FlagStays(s, l);
    if l.Complete? {
      CompletesUnfailed(s, l.c);
    } else {
      Unfailed(s, l);
    }
    hide Inv, Enabled, Apply, Usable, FlagKept, Fails;
    forall m | 0 <= m < |s'.heap| && s'.heap[m].canceled
      ensures !Usable(s', m)
    {
      NewFlags(s, l, m);
      if m < |s.heap| && s.heap[m].canceled {
        StaysUnused(s, h, l, m);
      } else {
        ExpiredIsUnused(s, h, l.c);
      }
    }
  }

  lemma {:induction false} UnarmedRuns(s: Client, h: Hist, run: seq<Step>) returns (h': Hist)
    requires Inv(s, h) && FlagKept(s) && !Armed(s) && Legal(s, run) && AllQuiet(run)
    ensures Inv(After(s, run), h') && FlagKept(After(s, run)) && !Armed(After(s, run))
  {
    if run == [] {
      h' := h;
    } else {
      var front, l := run[..|run| - 1], run[|run| - 1];
      assert Quiet(l);
      var before := UnarmedRuns(s, h, front);
      hide Enabled, Apply, Armed, FlagKept;
      h' := Keeps(After(s, front), before, l);
      assert !Apply(After(s, front), l).panicked;
      hide Inv;
      StaysUnarmed(After(s, front), before, l);
    }
  }

  /** A call can still fail as canceled exactly if the client is armed. */
  lemma CanFailIff(s: Client, h: Hist)
    requires Inv(s, h) && FlagKept(s) && s.pendingRequests > 0
    ensures CanFail(s) <==> Armed(s)
  {
    if Armed(s) {
      ArmedFails(s, h);
    } else if run :| Legal(s, run) && AllQuiet(run) && Fails(After(s, run)) {
      hide Inv, Legal, After, Usable, FlagKept;
      var _ := UnarmedRuns(s, h, run);
      assert false;
    }
  }

  // ----- runs

  predicate EndsOtherwise(run: seq<Step>) {
    forall l <- run :: !(l.TeardownOne? && l.err == Some(Canceled))
  }

  lemma {:induction false} RunsKeepFlags(codec: Codec, pendingRequests: nat, run: seq<Step>)
    requires Legal(Start(codec, pendingRequests), run) && EndsOtherwise(run)
    ensures var s := After(Start(codec, pendingRequests), run); FlagKept(s) && s.pendingRequests == pendingRequests
  {
    if run != [] {
      var front, l := run[..|run| - 1], run[|run| - 1];
      assert !(l.TeardownOne? && l.err == Some(Canceled));
      RunsKeepFlags(codec, pendingRequests, front);
      FlagStays(After(Start(codec, pendingRequests), front), l);
    }
  }

  /**
   Whatever has happened to a client, it can go on without a cancel to a call that fails as canceled exactly if one has
   already, or a canceled result is in the pool, or can come back to it or to a caller.
   */
  lemma MisfiresIff(codec: Codec, pendingRequests: nat, run: seq<Step>)
    requires pendingRequests > 0 && Legal(Start(codec, pendingRequests), run) && EndsOtherwise(run)
    ensures CanFail(After(Start(codec, pendingRequests), run)) <==> Armed(After(Start(codec, pendingRequests), run))
  {
    hide CanFail, Armed, Start, Enabled, Apply;
    RunsKeepFlags(codec, pendingRequests, run);
    var h := EveryRunIsSafe(codec, pendingRequests, run);
    CanFailIff(After(Start(codec, pendingRequests), run), h);
  }

  // ----- one cancel

  /** A writer that has taken `m` would displace a canceled entry somebody waits for, unless it finds `m` canceled too. */
  ghost predicate Frees(s: Client, m: Ref) {
    exists k: nat, id, x: Ref :: k < |s.conns| && s.conns[k].writer == Took(m) && FiledAt(s.conns[k], id, x) && Displaces(s, k, id)
                       && x < |s.heap| && s.heap[x].canceled && IsWaiting(s, x)
  }

  lemma CancelDisplaces(s: Client, m: Ref, k: nat, id: uint32)
    requires Enabled(s, Cancel(m)) && k < |s.conns|
    ensures Displaces(Apply(s, Cancel(m)), k, id) <==> Displaces(s, k, id) && s.conns[k].writer != Took(m)
  {
  }

  lemma CancelReturnsAt(s: Client, m: Ref, k: nat, x: Ref)
    requires Enabled(s, Cancel(m)) && k < |s.conns|
    ensures ReturnsAt(s, k, x) ==> ReturnsAt(Apply(s, Cancel(m)), k, x)
    ensures ReturnsAt(Apply(s, Cancel(m)), k, x) ==>
              ReturnsAt(s, k, x)
              || (s.conns[k].writer == Took(m) && x != m && exists id :: FiledAt(s.conns[k], id, x) && Displaces(s, k, id))
  {
    var s' := Apply(s, Cancel(m));
    forall id
      ensures Displaces(s', k, id) <==> Displaces(s, k, id) && s.conns[k].writer != Took(m)
    {
      CancelDisplaces(s, m, k, id);
    }
    hide Displaces;
    assert s'.conns == s.conns && s'.pendingRequests == s.pendingRequests;
  }

  lemma CancelReturns(s: Client, m: Ref, x: Ref)
    requires Enabled(s, Cancel(m)) && x < |s.heap|
    ensures Returns(s, x) ==> Returns(Apply(s, Cancel(m)), x)
    ensures Returns(Apply(s, Cancel(m)), x) && s.heap[x].canceled && IsWaiting(s, x) && x != m ==> Returns(s, x) || Frees(s, m)
    ensures Returns(Apply(s, Cancel(m)), m) ==> Returns(s, m)
  {
    var s' := Apply(s, Cancel(m));
    forall k | 0 <= k < |s.conns|
      ensures ReturnsAt(s, k, x) ==> ReturnsAt(s', k, x)
      ensures ReturnsAt(s', k, m) ==> ReturnsAt(s, k, m)
      ensures ReturnsAt(s', k, x) && s.heap[x].canceled && IsWaiting(s, x) && x != m ==> ReturnsAt(s, k, x) || Frees(s, m)
    {
      CancelReturnsAt(s, m, k, x);
      CancelReturnsAt(s, m, k, m);
    }
    hide ReturnsAt, Frees, IsWaiting;
  }

  lemma CancelUsable(s: Client, m: Ref, x: Ref)
    requires Enabled(s, Cancel(m)) && x < |s.heap|
    ensures Usable(s, x) ==> Usable(Apply(s, Cancel(m)), x)
    ensures Usable(Apply(s, Cancel(m)), x) && s.heap[x].canceled && x != m ==> Usable(s, x) || Frees(s, m)
    ensures Usable(Apply(s, Cancel(m)), m) ==> Usable(s, m)
  {
    var s' := Apply(s, Cancel(m));
    CancelReturns(s, m, x);
    hide Returns, Frees;
    forall c | 0 <= c < |s.calls|
      ensures WillUse(s, s.calls[c], x) ==> WillUse(s', s.calls[c], x)
      ensures WillUse(s', s.calls[c], m) ==> WillUse(s, s.calls[c], m)
      ensures WillUse(s', s.calls[c], x) && s.heap[x].canceled && x != m ==> WillUse(s, s.calls[c], x) || Frees(s, m)
    {
      assert s.calls[c].phase == Waiting(x) ==> IsWaiting(s, x);
    }
  }

  lemma FreedIsUsable(s: Client, m: Ref)
    requires Enabled(s, Cancel(m)) && Frees(s, m)
    ensures Armed(Apply(s, Cancel(m)))
  {
    var s' := Apply(s, Cancel(m));
    var k: nat, id, x: Ref :| k < |s.conns| && s.conns[k].writer == Took(m) && FiledAt(s.conns[k], id, x) && Displaces(s, k, id)
                    && x < |s.heap| && s.heap[x].canceled && IsWaiting(s, x);
    CancelDisplaces(s, m, k, id);
    assert ReturnsAt(s', k, x);
    var c :| 0 <= c < |s.calls| && s.calls[c].phase == Waiting(x);
    assert WillUse(s', s'.calls[c], x);
    assert s'.heap[x].canceled;
  }

  /**
   A cancel lets a call fail as canceled, where none could, exactly if the result is in the pool or can come back to it or
   to a caller, or canceling it keeps a writer from displacing one that then can.
   */
  lemma CancelMisfiresIff(s: Client, h: Hist, m: Ref)
    requires Inv(s, h) && FlagKept(s) && s.pendingRequests > 0 && Enabled(s, Cancel(m)) && !CanFail(s)
    ensures CanFail(Apply(s, Cancel(m))) <==> Usable(s, m) || Frees(s, m)
  {
    var s' := Apply(s, Cancel(m));
    hide CanFail, Inv, Usable, Frees;
    CanFailIff(s, h);
    var h' := Keeps(s, h, Cancel(m));
    FlagStays(s, Cancel(m));
    CanFailIff(s', h');
    CancelUsable(s, m, m);
    if Frees(s, m) {
      FreedIsUsable(s, m);
    } else if x :| 0 <= x < |s.heap| && s'.heap[x].canceled && Usable(s', x) {
      CancelUsable(s, m, x);
    }
    assert s'.heap[m].canceled;
  }
}
