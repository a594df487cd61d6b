/**
 What becomes of a call: when somebody is still bound to complete it, and when it can fail as canceled.
 */
module ClientOutcomes {
  import opened Wrappers
  import opened Bytes
  import opened Encoding
  import opened ClientSteps
  import opened ClientSafety
  import opened ClientRuns

  // ----- nothing is lost

  ghost predicate InWriter(s: Client, m: Ref) {
    exists k :: 0 <= k < |s.conns| && WritesNow(s.conns[k], m)
  }

  predicate WritesNow(conn: Conn, m: Ref) {
    conn.writer == Took(m) || conn.writer == Filing(m)
  }

  ghost predicate InMap(s: Client, m: Ref) {
    exists k, id :: 0 <= k < |s.conns| && FiledAt(s.conns[k], id, m)
  }

  predicate FiledAt(conn: Conn, id: uint32, m: Ref) {
    id in conn.pending && conn.pending[id] == m
  }

  /** Queued, in a writer's hands, or filed: somebody will complete it. */
  ghost predicate Placed(s: Client, m: Ref) {
    m in s.queue || InWriter(s, m) || InMap(s, m)
  }

  ghost predicate Tended(s: Client, m: Ref) {
    m < |s.heap| && (s.heap[m].done.Closed? || Placed(s, m))
  }

  predicate Awaited(call: Call) {
    call.phase.Waiting? || call.phase.Handed?
  }

  /** Every result a caller waits for is complete, or will be completed by whoever has it. */
  ghost predicate NoneLost(s: Client) {
    forall c :: 0 <= c < |s.calls| && Awaited(s.calls[c]) ==> Tended(s, s.calls[c].phase.m)
  }

  /** Does the step put another entry in the place of `m`, or take `m` out without completing it? */
  ghost predicate Drops(s: Client, l: Step, m: Ref)
    requires Enabled(s, l)
  {
    match l
    case WriterFile(k) =>
      var request := s.heap[s.conns[k].writer.m].request;
      request.Some? && FiledAt(s.conns[k], request.value.ID(), m)
    case WriterSweep(k, _) => AnyCanceled(s, s.conns[k].pending) && FiledAt(s.conns[k], s.conns[k].writer.id, m)
    case _ => false
  }

  /** Does it do so to a result somebody waits for? */
  ghost predicate Loses(s: Client, l: Step)
    requires Enabled(s, l)
  {
    exists c :: 0 <= c < |s.calls| && Awaited(s.calls[c]) && Drops(s, l, s.calls[c].phase.m)
  }

  predicate Uses(phase: Phase, m: Ref) {
    match phase case Ready => false case Finished(_) => false case p => p.m == m
  }

  /** The result call `c` waits for is its own, and open wherever it is. */
  ghost predicate Private(s: Client, c: nat, m: Ref) {
    && m < |s.heap| && !s.heap[m].skipResponse && m !in s.pool
    && (Placed(s, m) ==> s.heap[m].done.Open?)
    && forall x :: 0 <= x < |s.calls| && x != c ==> !Uses(s.calls[x].phase, m)
  }

  lemma AwaitedIsPrivate(s: Client, h: Hist, c: nat)
    requires Inv(s, h) && c < |s.calls| && Awaited(s.calls[c])
    ensures Private(s, c, s.calls[c].phase.m)
  {
    var m := s.calls[c].phase.m;
    assert CallOk(s, h, c);
    assert CellOk(s, h, m);
    forall x | 0 <= x < |s.calls| && x != c
      ensures !Uses(s.calls[x].phase, m)
    {
      assert CallOk(s, h, x);
    }
    if m in s.queue {
      var i :| 0 <= i < |s.queue| && s.queue[i] == m;
      assert At(s, h, s.queue[i], Queued);
    }
    if k :| 0 <= k < |s.conns| && WritesNow(s.conns[k], m) {
      assert ConnOk(s, h, k);
    }
    if k, id :| 0 <= k < |s.conns| && FiledAt(s.conns[k], id, m) {
      assert ConnOk(s, h, k) && At(s, h, s.conns[k].pending[id], Pending(k, id));
    }
  }

  /** A result that stays where it is, moves on, or is completed. */
  lemma Passes(s: Client, s': Client, m: Ref)
    requires Tended(s, m) && |s.heap| <= |s'.heap| && |s.conns| <= |s'.conns|
    requires s.heap[m].done.Closed? ==> s'.heap[m].done.Closed?
    requires m in s.queue ==> Tended(s', m)
    requires forall k :: 0 <= k < |s.conns| && WritesNow(s.conns[k], m) ==> Tended(s', m)
    requires forall k, id :: 0 <= k < |s.conns| && FiledAt(s.conns[k], id, m) ==> FiledAt(s'.conns[k], id, m) || Tended(s', m)
    ensures Tended(s', m)
  {
    if k, id :| 0 <= k < |s.conns| && FiledAt(s.conns[k], id, m) {
      assert FiledAt(s'.conns[k], id, m) || Tended(s', m);
    }
  }

  /** What is queued, in a writer's hands or filed is so still. */
  lemma StaysInPlace(s: Client, s': Client, m: Ref)
    requires Tended(s, m) && |s.heap| <= |s'.heap| && s'.heap[m].done == s.heap[m].done && s'.conns == s.conns
    requires m in s.queue ==> m in s'.queue
    ensures Tended(s', m)
  {
    if k :| 0 <= k < |s.conns| && WritesNow(s.conns[k], m) {
      assert WritesNow(s'.conns[k], m);
    }
    if k, id :| 0 <= k < |s.conns| && FiledAt(s.conns[k], id, m) {
      assert FiledAt(s'.conns[k], id, m);
    }
  }

  lemma StaysForEvict(s: Client, e: nat, c: nat, m: Ref)
    requires Enabled(s, EvictOldest(e)) && Private(s, c, m) && Tended(s, m)
    ensures Tended(Apply(s, EvictOldest(e)), m)
  {
    var s' := Apply(s, EvictOldest(e));
    if s.queue != [] && s.queue[0] == m {
      assert s'.heap[m].done.Closed?;
    } else {
      if m in s.queue {
        var i :| 0 <= i < |s.queue| && s.queue[i] == m;
        assert s'.queue[i - 1] == m;
      }
      StaysInPlace(s, s', m);
    }
  }

  /** Steps of callers leave what another call waits for where it is, but for the oldest in the queue. */
  lemma StaysForCallers(s: Client, l: Step, c: nat, m: Ref)
    requires Enabled(s, l) && Private(s, c, m) && Tended(s, m) && c < |s.calls| && Awaited(s.calls[c]) && s.calls[c].phase.m == m
    requires l.Invoke? || l.Acquire? || l.TrySend? || l.EvictOldest? || l.Resend? || l.Complete? || l.Expire? || l.Cancel?
    requires l.Complete? ==> l.c != c
    ensures Tended(Apply(s, l), m)
  {
    if l.EvictOldest? {
      StaysForEvict(s, l.c, c, m);
    } else {
      hide Tended;
      Unaffected(s, l, c, m);
      StaysInPlace(s, Apply(s, l), m);
    }
  }

  lemma Unaffected(s: Client, l: Step, c: nat, m: Ref)
    requires Enabled(s, l) && Private(s, c, m) && c < |s.calls| && Awaited(s.calls[c]) && s.calls[c].phase.m == m
    requires l.Invoke? || l.Acquire? || l.TrySend? || l.Resend? || l.Complete? || l.Expire? || l.Cancel?
    requires l.Complete? ==> l.c != c
    ensures var s' := Apply(s, l);
            && |s.heap| <= |s'.heap| && s'.heap[m].done == s.heap[m].done && s'.conns == s.conns && s.queue <= s'.queue
  {
  }

  lemma StaysForConnections(s: Client, l: Step, c: nat, m: Ref)
    requires Enabled(s, l) && Private(s, c, m) && Tended(s, m)
    requires l.Connect? || l.WriterTake? || l.WriterRecount? || l.WriterEncode? || l.WriterStop? || l.ReaderStop?
    ensures Tended(Apply(s, l), m)
  {
    var s' := Apply(s, l);
    assert s'.heap == s.heap;
    if l.WriterTake? && m in s.queue {
      var i :| 0 <= i < |s.queue| && s.queue[i] == m;
      if i == 0 {
        assert WritesNow(s'.conns[l.k], m);
      } else {
        assert s'.queue[i - 1] == m;
      }
    }
    if k :| 0 <= k < |s.conns| && WritesNow(s.conns[k], m) {
      assert WritesNow(s'.conns[k], m);
    }
    Passes(s, s', m);
  }

  lemma StaysForCheck(s: Client, k: nat, c: nat, m: Ref)
    requires Enabled(s, WriterCheck(k)) && Private(s, c, m) && Tended(s, m)
    ensures Tended(Apply(s, WriterCheck(k)), m)
  {
    var s' := Apply(s, WriterCheck(k));
    if s.conns[k].writer.m == m {
      assert WritesNow(s.conns[k], m);
      assert s.heap[m].canceled ==> s'.heap[m].done.Closed?;
      assert !s.heap[m].canceled ==> WritesNow(s'.conns[k], m);
    } else {
      if x :| 0 <= x < |s.conns| && WritesNow(s.conns[x], m) {
        assert WritesNow(s'.conns[x], m);
      }
      Passes(s, s', m);
    }
  }

  lemma StaysForFile(s: Client, k: nat, c: nat, m: Ref)
    requires Enabled(s, WriterFile(k)) && Private(s, c, m) && Tended(s, m)
    requires !Drops(s, WriterFile(k), m) && !Apply(s, WriterFile(k)).panicked
    ensures Tended(Apply(s, WriterFile(k)), m)
  {
    var s' := Apply(s, WriterFile(k));
    if s.conns[k].writer.m == m {
      assert FiledAt(s'.conns[k], s.heap[m].request.value.ID(), m);
    } else {
      if x :| 0 <= x < |s.conns| && WritesNow(s.conns[x], m) {
        assert WritesNow(s'.conns[x], m);
      }
      Passes(s, s', m);
    }
  }

  lemma StaysForSweep(s: Client, l: Step, c: nat, m: Ref)
    requires Enabled(s, l) && l.WriterSweep? && Private(s, c, m) && Tended(s, m) && !Drops(s, l, m)
    ensures Tended(Apply(s, l), m)
  {
    var s' := Apply(s, l);
    if x :| 0 <= x < |s.conns| && WritesNow(s.conns[x], m) {
      assert WritesNow(s'.conns[x], m);
    }
    Passes(s, s', m);
  }

  /** A reply, or the end of the connection, completes what it takes out of the map. */
  lemma StaysForFinish(s: Client, l: Step, c: nat, m: Ref)
    requires Enabled(s, l) && (l.ReaderDeliver? || l.TeardownOne?) && Private(s, c, m) && Tended(s, m) && !Apply(s, l).panicked
    ensures Tended(Apply(s, l), m)
  {
    var s' := Apply(s, l);
    var id := if l.ReaderDeliver? then l.packet.ID() else l.id;
    if FiledAt(s.conns[l.k], id, m) {
      assert InMap(s, m);
      assert s'.heap[m].done.Closed?;
    } else {
      if x :| 0 <= x < |s.conns| && WritesNow(s.conns[x], m) {
        assert WritesNow(s'.conns[x], m);
      }
      Passes(s, s', m);
    }
  }

  /** Only a send makes a call wait for a result, which it has just queued. */
  lemma WaitsBySending(s: Client, l: Step, c: nat)
    requires Enabled(s, l) && c < |Apply(s, l).calls| && Awaited(Apply(s, l).calls[c])
    ensures || (c < |s.calls| && Apply(s, l).calls[c].phase == s.calls[c].phase)
            || (Apply(s, l).queue == s.queue + [Apply(s, l).calls[c].phase.m] && Apply(s, l).calls[c].phase.m < |Apply(s, l).heap|)
  {
    if l.TrySend? || l.Resend? {
      SendsOnce(s, l, c);
    } else if l.Invoke? || l.Acquire? || l.EvictOldest? || l.Complete? || l.Expire? || l.Cancel? {
      WaitsOn(s, l, c);
    } else {
      CallsStayPut(s, l);
    }
  }

  lemma WaitsOn(s: Client, l: Step, c: nat)
    requires Enabled(s, l) && (l.Invoke? || l.Acquire? || l.EvictOldest? || l.Complete? || l.Expire? || l.Cancel?)
    requires c < |Apply(s, l).calls| && Awaited(Apply(s, l).calls[c])
    ensures c < |s.calls| && Apply(s, l).calls[c].phase == s.calls[c].phase
  {
    if l.Acquire? || l.EvictOldest? || l.Complete? || l.Expire? {
      OthersWaitOn(s, l, c);
    }
  }

  lemma OthersWaitOn(s: Client, l: Step, c: nat)
    requires Enabled(s, l) && (l.Acquire? || l.EvictOldest? || l.Complete? || l.Expire?)
    requires c < |Apply(s, l).calls| && Awaited(Apply(s, l).calls[c])
    ensures c < |s.calls| && Apply(s, l).calls[c].phase == s.calls[c].phase
  {
  }

  lemma CallsStayPut(s: Client, l: Step)
    requires Enabled(s, l)
    requires !l.Invoke? && !l.Acquire? && !l.TrySend? && !l.EvictOldest? && !l.Resend? && !l.Complete? && !l.Expire? && !l.Cancel?
    ensures Apply(s, l).calls == s.calls
  {
  }

  lemma SendsOnce(s: Client, l: Step, c: nat)
    requires Enabled(s, l) && (l.TrySend? || l.Resend?) && c < |s.calls| && Awaited(Apply(s, l).calls[c])
    ensures || Apply(s, l).calls[c].phase == s.calls[c].phase
            || (Apply(s, l).queue == s.queue + [Apply(s, l).calls[c].phase.m] && Apply(s, l).calls[c].phase.m < |Apply(s, l).heap|)
  {
  }

  /** A step that drops nothing somebody waits for loses nothing. */
  lemma NoneLostOnce(s: Client, h: Hist, l: Step)
    requires Inv(s, h) && Enabled(s, l) && NoneLost(s) && !Apply(s, l).panicked && !Loses(s, l)
    ensures NoneLost(Apply(s, l))
  {
    hide Inv, Tended, Private, Drops;
    var s' := Apply(s, l);
    forall c | 0 <= c < |s'.calls| && Awaited(s'.calls[c])
      ensures Tended(s', s'.calls[c].phase.m)
    {
      WaitsBySending(s, l, c);
      if c < |s.calls| && s'.calls[c].phase == s.calls[c].phase {
        AwaitedIsPrivate(s, h, c);
        assert l.Complete? ==> l.c != c;
        StillTended(s, l, c);
      } else {
        QueuedIsTended(s', s'.calls[c].phase.m);
      }
    }
  }

  lemma QueuedIsTended(s: Client, m: Ref)
    requires m < |s.heap| && m in s.queue
    ensures Tended(s, m)
  {
  }

  /** What is filed is neither queued nor in a writer's hands, nor filed anywhere else. */
  lemma FiledIsThere(s: Client, h: Hist, k: nat, id: uint32, m: Ref)
    requires Inv(s, h) && k < |s.conns| && FiledAt(s.conns[k], id, m)
    ensures m < |s.heap| && s.heap[m].done.Open? && m !in s.queue && !InWriter(s, m)
    ensures forall k', id' :: 0 <= k' < |s.conns| && FiledAt(s.conns[k'], id', m) ==> k' == k && id' == id
  {
    PendingIsAlone(s, h, k, id);
    assert ConnOk(s, h, k) && At(s, h, m, Pending(k, id));
    forall x | 0 <= x < |s.conns|
      ensures !WritesNow(s.conns[x], m)
    {
      assert ConnOk(s, h, x);
    }
  }

  /** And when it is dropped, nobody is left who will complete it. */
  lemma DroppedIsLost(s: Client, h: Hist, l: Step, c: nat)
    requires Inv(s, h) && Enabled(s, l) && !Apply(s, l).panicked && c < |s.calls| && Awaited(s.calls[c])
    requires Drops(s, l, s.calls[c].phase.m)
    ensures !NoneLost(Apply(s, l))
  {
    var s', m, k := Apply(s, l), s.calls[c].phase.m, l.k;
    var id := if l.WriterFile? then s.heap[s.conns[k].writer.m].request.value.ID() else s.conns[k].writer.id;
    FiledIsThere(s, h, k, id, m);
    hide Inv;
    assert l.WriterFile? ==> WritesNow(s.conns[k], s.conns[k].writer.m);
    assert s'.calls == s.calls && s'.heap == s.heap && s'.queue == s.queue;
    NowhereElse(s, s', k, id, m);
    assert Awaited(s'.calls[c]) && !Tended(s', m);
  }

  lemma NowhereElse(s: Client, s': Client, k: nat, id: uint32, m: Ref)
    requires k < |s.conns| == |s'.conns| && m !in s'.queue && !InWriter(s, m)
    requires forall k', id' :: 0 <= k' < |s.conns| && FiledAt(s.conns[k'], id', m) ==> k' == k && id' == id
    requires forall x :: 0 <= x < |s.conns| && x != k ==> s'.conns[x] == s.conns[x]
    requires !WritesNow(s'.conns[k], m) && !FiledAt(s'.conns[k], id, m)
    requires forall id' :: id' != id && FiledAt(s'.conns[k], id', m) ==> FiledAt(s.conns[k], id', m)
    ensures !Placed(s', m)
  {
    forall x | 0 <= x < |s'.conns|
      ensures !WritesNow(s'.conns[x], m)
    {
      if x != k {
        assert !WritesNow(s.conns[x], m);
      }
    }
  }

  /** A step loses a result exactly if it drops one that somebody waits for. */
  lemma LostIff(s: Client, h: Hist, l: Step)
    requires Inv(s, h) && Enabled(s, l) && NoneLost(s) && !Apply(s, l).panicked
    ensures NoneLost(Apply(s, l)) <==> !Loses(s, l)
  {
    hide Inv, NoneLost, Drops, Apply, Enabled;
    if Loses(s, l) {
      var c :| 0 <= c < |s.calls| && Awaited(s.calls[c]) && Drops(s, l, s.calls[c].phase.m);
      DroppedIsLost(s, h, l, c);
    } else {
      NoneLostOnce(s, h, l);
    }
  }

  lemma StillTended(s: Client, l: Step, c: nat)
    requires Enabled(s, l) && !Apply(s, l).panicked && c < |s.calls| && Awaited(s.calls[c])
    requires Private(s, c, s.calls[c].phase.m) && Tended(s, s.calls[c].phase.m)
    requires !Drops(s, l, s.calls[c].phase.m)
    requires l.Complete? ==> l.c != c
    ensures Tended(Apply(s, l), s.calls[c].phase.m)
  {
    var m := s.calls[c].phase.m;
    hide Private, Tended, Drops;
    match l
    case WriterCheck(k) => StaysForCheck(s, k, c, m);
    case WriterFile(k) => StaysForFile(s, k, c, m);
    case WriterSweep(_, _) => StaysForSweep(s, l, c, m);
    case ReaderDeliver(_, _) => StaysForFinish(s, l, c, m);
    case TeardownOne(_, _, _) => StaysForFinish(s, l, c, m);
    case Connect => StaysForConnections(s, l, c, m);
    case WriterTake(_) => StaysForConnections(s, l, c, m);
    case WriterRecount(_) => StaysForConnections(s, l, c, m);
    case WriterEncode(_) => StaysForConnections(s, l, c, m);
    case WriterStop(_) => StaysForConnections(s, l, c, m);
    case ReaderStop(_) => StaysForConnections(s, l, c, m);
    case _ => StaysForCallers(s, l, c, m);
  }

  /** No step of the run drops a result somebody waits for. */
  ghost predicate Lossless(s: Client, run: seq<Step>)
    requires Legal(s, run)
  {
    run == [] || (Lossless(s, run[..|run| - 1]) && !Loses(After(s, run[..|run| - 1]), run[|run| - 1]))
  }

  /** In no state of the run is a result lost. */
  ghost predicate NeverLost(s: Client, run: seq<Step>)
    requires Legal(s, run)
  {
    NoneLost(After(s, run)) && (run == [] || NeverLost(s, run[..|run| - 1]))
  }

  /**
   Throughout a run whoever waits for a result waits for one that is complete, queued, in a writer's hands or filed,
   exactly if no step puts another result in the place of one that is waited for, or sweeps it away.
   */
  lemma {:induction false} NothingIsLost(codec: Codec, pendingRequests: nat, run: seq<Step>)
    requires Legal(Start(codec, pendingRequests), run)
    ensures NeverLost(Start(codec, pendingRequests), run) <==> Lossless(Start(codec, pendingRequests), run)
  {
    if run != [] {
      var front := run[..|run| - 1];
      NothingIsLost(codec, pendingRequests, front);
      var h := EveryRunIsSafe(codec, pendingRequests, front);
      NeverPanics(codec, pendingRequests, run);
      hide Inv, NoneLost, Loses, Enabled, Apply;
      if NoneLost(After(Start(codec, pendingRequests), front)) {
        LostIff(After(Start(codec, pendingRequests), front), h, run[|run| - 1]);
      } else {
        NotNeverLost(Start(codec, pendingRequests), front);
      }
    }
  }

  lemma NotNeverLost(s: Client, run: seq<Step>)
    requires Legal(s, run) && !NoneLost(After(s, run))
    ensures !NeverLost(s, run)
  {
  }

  /** With an overwrite one is: after the run of `SharedSeqMisleads` nobody has the result its first call waits for. */
  lemma OverwrittenIsLost(codec: Codec, p0: Packet, p1: Packet, answer: Packet) returns (run: seq<Step>)
    requires Encodable(codec, p0) && p0.ID() == p1.ID() == answer.ID()
    ensures Legal(Start(codec, 2), run) && !NoneLost(After(Start(codec, 2), run))
  {
    var s;
    run, s := SharedSeqMisleads(codec, p0, p1, answer);
    hide Legal, After, Start;
    assert Awaited(s.calls[0]) && !Tended(s, s.calls[0].phase.m);
  }

  // ----- what a caller is told

  /** Every completed result has an error or a response, and no call came back with neither. */
  ghost predicate Informed(s: Client) {
    && (forall m :: 0 <= m < |s.heap| ==> Told(s.heap[m]))
    && (forall c :: 0 <= c < |s.calls| ==> s.calls[c].phase != Finished(Reply(None)))
  }

  predicate Told(cell: AsyncResult) {
    cell.done.Closed? ==> cell.error.Some? || cell.response.Some?
  }

  /** Cells and calls are as they were, or fit to be told of. */
  ghost predicate Tells(s: Client, s': Client) {
    && |s.heap| <= |s'.heap| && |s.calls| <= |s'.calls|
    && (forall m :: 0 <= m < |s'.heap| ==> (m < |s.heap| && s'.heap[m] == s.heap[m]) || Told(s'.heap[m]))
    && (forall c :: 0 <= c < |s'.calls| ==>
          (c < |s.calls| && s'.calls[c].phase == s.calls[c].phase) || s'.calls[c].phase != Finished(Reply(None)))
  }

  lemma TellsOn(s: Client, s': Client)
    requires Informed(s) && Tells(s, s')
    ensures Informed(s')
  {
  }

  lemma TellsAcquire(s: Client, h: Hist, c: nat, m: Ref)
    requires Inv(s, h) && Enabled(s, Acquire(c, m))
    ensures Tells(s, Apply(s, Acquire(c, m)))
  {
    if m < |s.heap| {
      assert At(s, h, m, Pooled) && CellOk(s, h, m);
    }
  }

  lemma TellsComplete(s: Client, c: nat)
    requires Enabled(s, Complete(c)) && Informed(s)
    ensures Tells(s, Apply(s, Complete(c)))
  {
    assert Told(s.heap[s.calls[c].phase.m]);
  }

  lemma TellsSend(s: Client, l: Step)
    requires Enabled(s, l) && (l.TrySend? || l.Resend?)
    ensures Tells(s, Apply(s, l))
  {
  }

  lemma TellsCaller(s: Client, l: Step)
    requires Enabled(s, l) && Informed(s) && (l.Invoke? || l.EvictOldest? || l.Expire? || l.Cancel?)
    ensures Tells(s, Apply(s, l))
  {
  }

  lemma InformedCaller(s: Client, h: Hist, l: Step)
    requires Inv(s, h) && Enabled(s, l) && Informed(s)
    requires l.Invoke? || l.Acquire? || l.TrySend? || l.EvictOldest? || l.Resend? || l.Complete? || l.Expire? || l.Cancel?
    ensures Informed(Apply(s, l))
  {
    hide Inv, Informed, Enabled, Apply, Tells;
    match l {
      case Acquire(c, m) => TellsAcquire(s, h, c, m);
      case Complete(c) => TellsComplete(s, c);
      case TrySend(_) => TellsSend(s, l);
      case Resend(_) => TellsSend(s, l);
      case _ => TellsCaller(s, l);
    }
    TellsOn(s, Apply(s, l));
  }

  lemma InformedConnection(s: Client, l: Step)
    requires Enabled(s, l) && Informed(s) && !Apply(s, l).panicked
    requires l.Connect? || l.WriterTake? || l.WriterCheck? || l.WriterFile? || l.WriterSweep? || l.WriterRecount? || l.WriterEncode?
             || l.WriterStop? || l.ReaderDeliver? || l.ReaderStop? || (l.TeardownOne? && l.err.Some?)
    ensures Informed(Apply(s, l))
  {
  }

  /** A connection that ends without an error completes what is still pending with nothing at all. */
  lemma StoppedIsNotTold(s: Client, h: Hist, k: nat, id: uint32)
    requires Inv(s, h) && Enabled(s, TeardownOne(k, id, None))
    ensures !Informed(Apply(s, TeardownOne(k, id, None)))
  {
    var m := s.conns[k].pending[id];
    assert ConnOk(s, h, k) && At(s, h, m, Pending(k, id)) && CellOk(s, h, m);
    hide Inv;
    LeftUntold(s, k, id);
  }

  lemma LeftUntold(s: Client, k: nat, id: uint32)
    requires Enabled(s, TeardownOne(k, id, None))
    requires var cell := s.heap[s.conns[k].pending[id]]; cell.done.Open? && cell.response.None?
    ensures !Informed(Apply(s, TeardownOne(k, id, None)))
  {
    assert !Told(Apply(s, TeardownOne(k, id, None)).heap[s.conns[k].pending[id]]);
  }

  /** That is the one step that leaves a caller uninformed. */
  lemma InformedIff(s: Client, h: Hist, l: Step)
    requires Inv(s, h) && Enabled(s, l) && Informed(s) && !Apply(s, l).panicked
    ensures Informed(Apply(s, l)) <==> !(l.TeardownOne? && l.err.None?)
  {
    hide Inv, Informed, Enabled, Apply;
    if l.TeardownOne? && l.err.None? {
      StoppedIsNotTold(s, h, l.k, l.id);
    } else if l.Invoke? || l.Acquire? || l.TrySend? || l.EvictOldest? || l.Resend? || l.Complete? || l.Expire? || l.Cancel? {
      InformedCaller(s, h, l);
    } else {
      InformedConnection(s, l);
    }
  }

  /** No connection with pending calls ends without an error. */
  ghost predicate EndsWithErrors(run: seq<Step>) {
    forall l <- run :: !(l.TeardownOne? && l.err.None?)
  }

  lemma EndsOn(run: seq<Step>)
    requires run != []
    ensures var l := run[|run| - 1];
            EndsWithErrors(run) <==> EndsWithErrors(run[..|run| - 1]) && !(l.TeardownOne? && l.err.None?)
  {
    assert run == run[..|run| - 1] + [run[|run| - 1]];
  }

  ghost predicate AlwaysInformed(s: Client, run: seq<Step>)
    requires Legal(s, run)
  {
    Informed(After(s, run)) && (run == [] || AlwaysInformed(s, run[..|run| - 1]))
  }

  /** Throughout a run every caller is told why, exactly if no connection with pending calls ends without an error. */
  lemma {:induction false} CallersAreTold(codec: Codec, pendingRequests: nat, run: seq<Step>)
    requires Legal(Start(codec, pendingRequests), run)
    ensures AlwaysInformed(Start(codec, pendingRequests), run) <==> EndsWithErrors(run)
  {
    if run != [] {
      var front, l := run[..|run| - 1], run[|run| - 1];
      CallersAreTold(codec, pendingRequests, front);
      var h := EveryRunIsSafe(codec, pendingRequests, front);
      NeverPanics(codec, pendingRequests, run);
      EndsOn(run);
      hide Inv, Informed, Enabled, Apply, EndsWithErrors, Start;
      if AlwaysInformed(Start(codec, pendingRequests), front) {
        InformedIff(After(Start(codec, pendingRequests), front), h, l);
      }
    }
  }

  function OneCall(codec: Codec, p: Packet, conns: seq<Conn>, count: uint32): Client {
    Client(codec, 2, [], [AsyncResult(Some(p), None, None, Open, false, false)], multiset{}, conns, count,
           [Call(p, Sync(0), 0, Waiting(0))], false)
  }

  /** One call is sent. */
  lemma OneIsSent(codec: Codec, p: Packet) returns (run: seq<Step>)
    requires Encodable(codec, p)
    ensures Legal(Start(codec, 2), run) && After(Start(codec, 2), run) == OneCall(codec, p, [Conn(map[p.ID() := 0], Idle, false)], 1)
  {
    hide Legal, After;
    var s0 := Start(codec, 2);
    var s1;
    run, s1 := Asked(s0, p);
    OneMore(s0, run, Connect);
    run := run + [Connect];
    var steps, s2 := WriterTurn(After(s0, run), 0, Conn(map[], Idle, false));
    RunsChain(s0, run, steps);
    run := run + steps;
    hide Enabled, Apply;
    EncodeTurn(s2, Conn(map[p.ID() := 0], Encoding(0), false), 0);
    OneMore(s0, run, WriterEncode(0));
    run := run + [WriterEncode(0)];
  }

  function Stopping(codec: Codec, p: Packet, writer: Writer, readerDone: bool): Client {
    OneCall(codec, p, [Conn(map[p.ID() := 0], writer, readerDone)], 1)
  }

  lemma StopOnce(codec: Codec, p: Packet) returns (t: Client)
    ensures var s, s1, s2 := Stopping(codec, p, Idle, false), Stopping(codec, p, Idle, true), Stopping(codec, p, Stopped, true);
            && Enabled(s, ReaderStop(0)) && Apply(s, ReaderStop(0)) == s1
            && Enabled(s1, WriterStop(0)) && Apply(s1, WriterStop(0)) == s2
            && Enabled(s2, TeardownOne(0, p.ID(), None)) && Apply(s2, TeardownOne(0, p.ID(), None)) == t
            && t.calls == [Call(p, Sync(0), 0, Waiting(0))] && !t.panicked
            && t.heap == [AsyncResult(Some(p), None, None, Closed, false, false)]
  {
    t := Apply(Stopping(codec, p, Stopped, true), TeardownOne(0, p.ID(), None));
  }

  /** The client is stopped before the reply comes. */
  lemma StopTurn(codec: Codec, p: Packet) returns (more: seq<Step>, t: Client)
    ensures var s := OneCall(codec, p, [Conn(map[p.ID() := 0], Idle, false)], 1); Legal(s, more) && After(s, more) == t
    ensures t.calls == [Call(p, Sync(0), 0, Waiting(0))] && !t.panicked
    ensures t.heap == [AsyncResult(Some(p), None, None, Closed, false, false)]
  {
    hide Legal, After, Enabled, Apply;
    t := StopOnce(codec, p);
    more := ThreeSteps(Stopping(codec, p, Idle, false), ReaderStop(0), WriterStop(0), TeardownOne(0, p.ID(), None),
                       Stopping(codec, p, Idle, true), Stopping(codec, p, Stopped, true));
  }

  lemma CompleteTurn(codec: Codec, p: Packet, t: Client)
    requires !t.panicked && t.calls == [Call(p, Sync(0), 0, Waiting(0))]
    requires t.heap == [AsyncResult(Some(p), None, None, Closed, false, false)]
    ensures Enabled(t, Complete(0)) && Apply(t, Complete(0)).calls == [Call(p, Sync(0), 0, Finished(Reply(None)))]
  {
  }

  /** A call that comes back with neither an error nor a response: the client was stopped while it was pending. */
  lemma StopSaysNothing(codec: Codec, p: Packet) returns (run: seq<Step>)
    requires Encodable(codec, p)
    ensures Legal(Start(codec, 2), run)
    ensures After(Start(codec, 2), run).calls == [Call(p, Sync(0), 0, Finished(Reply(None)))]
  {
    hide Legal, After, Start, Enabled, Apply;
    var s0 := Start(codec, 2);
    run := OneIsSent(codec, p);
    var more, t := StopTurn(codec, p);
    RunsChain(s0, run, more);
    CompleteTurn(codec, p, t);
    OneMore(s0, run + more, Complete(0));
    run := run + more + [Complete(0)];
  }

  // ----- who cancels

  /** A caller that still works with `m`, other than one to which CallAsync has handed it. */
  predicate WorksWith(phase: Phase, m: Ref) {
    Uses(phase, m) && !phase.Handed?
  }

  /** A canceled result is not up for reuse, and no call that works with a pooled result has it. */
  ghost predicate Apart(s: Client, m: Ref)
    requires m < |s.heap|
  {
    !s.heap[m].skipResponse && m !in s.pool && forall c :: 0 <= c < |s.calls| ==> !WorksWith(s.calls[c].phase, m)
  }

  ghost predicate Unflagged(s: Client) {
    && (forall m :: 0 <= m < |s.heap| && s.heap[m].canceled ==> Apart(s, m))
    && (forall m :: 0 <= m < |s.heap| && s.heap[m].error == Some(Canceled) ==> s.heap[m].canceled)
    && (forall c :: 0 <= c < |s.calls| ==> s.calls[c].phase != Finished(Failed(Canceled)))
  }

  /** Callers cancel only results that nothing else will use again; connections end with errors of their own. */
  ghost predicate CarefulOnce(s: Client, l: Step)
    requires Enabled(s, l)
  {
    && (l.Cancel? ==> Apart(s, l.m))
    && (l.TeardownOne? ==> l.err != Some(Canceled))
  }

  /** Such is the result CallAsync has given a caller to wait for. */
  lemma HandedIsApart(s: Client, h: Hist, c: nat)
    requires Inv(s, h) && c < |s.calls| && s.calls[c].phase.Handed?
    ensures s.calls[c].phase.m < |s.heap| && Apart(s, s.calls[c].phase.m)
  {
    AwaitedIsPrivate(s, h, c);
    var m := s.calls[c].phase.m;
    forall x | 0 <= x < |s.calls|
      ensures !WorksWith(s.calls[x].phase, m)
    {
      assert x != c ==> !Uses(s.calls[x].phase, m);
    }
  }

  /** To cancel any other is to leave the flag where a later call can find it. */
  lemma CancelIff(s: Client, m: Ref)
    requires Enabled(s, Cancel(m)) && Unflagged(s)
    ensures Unflagged(Apply(s, Cancel(m))) <==> Apart(s, m)
  {
    var s' := Apply(s, Cancel(m));
    assert s'.heap[m].canceled;
    assert Apart(s', m) <==> Apart(s, m);
    forall x | 0 <= x < |s.heap| && x != m && s.heap[x].canceled
      ensures Apart(s', x)
    {
      assert Apart(s, x);
    }
  }

  ghost predicate Careful(s: Client, run: seq<Step>)
    requires Legal(s, run)
  {
    run == [] || (Careful(s, run[..|run| - 1]) && CarefulOnce(After(s, run[..|run| - 1]), run[|run| - 1]))
  }

  /** Steps of connections that release nothing. */
  lemma UnflaggedConnection(s: Client, l: Step)
    requires Enabled(s, l) && Unflagged(s) && CarefulOnce(s, l)
    requires l.Connect? || l.WriterTake? || l.WriterFile? || l.WriterSweep? || l.WriterRecount? || l.WriterEncode? || l.WriterStop?
             || l.ReaderStop? || l.ReaderDeliver? || l.TeardownOne?
    ensures Unflagged(Apply(s, l))
  {
    var s' := Apply(s, l);
    assert s'.calls == s.calls && s'.pool == s.pool && |s'.heap| == |s.heap|;
    assert forall m :: 0 <= m < |s.heap| ==>
      s'.heap[m].canceled == s.heap[m].canceled && s'.heap[m].skipResponse == s.heap[m].skipResponse;
    forall m | 0 <= m < |s'.heap| && s'.heap[m].canceled
      ensures Apart(s', m)
    {
      assert Apart(s, m);
    }
  }

  /** One call has gone on with its own result, which is not canceled. */
  ghost predicate OwnOnly(s: Client, s': Client, m: Ref) {
    && |s.heap| <= |s'.heap| && (|s'.heap| > |s.heap| ==> m == |s.heap| && |s'.heap| == |s.heap| + 1)
    && (forall x :: 0 <= x < |s.heap| && x != m ==> s'.heap[x] == s.heap[x])
    && (m < |s'.heap| ==> !s'.heap[m].canceled && s'.heap[m].error != Some(Canceled))
    && (forall x :: x in s'.pool ==> x in s.pool || x == m)
    && (forall c, x :: 0 <= c < |s'.calls| && WorksWith(s'.calls[c].phase, x) ==>
          x == m || (c < |s.calls| && WorksWith(s.calls[c].phase, x)))
    && (forall c :: 0 <= c < |s'.calls| ==> s'.calls[c].phase != Finished(Failed(Canceled)))
  }

  lemma UnflaggedOwn(s: Client, s': Client, m: Ref)
    requires Unflagged(s) && OwnOnly(s, s', m)
    ensures Unflagged(s')
  {
    forall x | 0 <= x < |s'.heap| && s'.heap[x].canceled
      ensures Apart(s', x)
    {
      assert x != m;
      assert Apart(s, x);
    }
  }

  lemma UnflaggedInvoke(s: Client, l: Step)
    requires Enabled(s, l) && Unflagged(s) && l.Invoke?
    ensures Unflagged(Apply(s, l))
  {
    UnflaggedOwn(s, Apply(s, l), |s.heap|);
  }

  lemma SendsOwn(s: Client, l: Step)
    requires Enabled(s, l) && Unflagged(s) && (l.TrySend? || l.Resend?)
    ensures OwnOnly(s, Apply(s, l), s.calls[l.c].phase.m)
  {
    var m := s.calls[l.c].phase.m;
    assert WorksWith(s.calls[l.c].phase, m) && !s.heap[m].canceled;
    if l.TrySend? {
      TriesOwn(s, l.c);
    } else {
      ResendsOwn(s, l.c);
    }
  }

  lemma TriesOwn(s: Client, c: nat)
    requires Enabled(s, TrySend(c)) && Unflagged(s) && !s.heap[s.calls[c].phase.m].canceled
    ensures OwnOnly(s, Apply(s, TrySend(c)), s.calls[c].phase.m)
  {
    assert WorksWith(s.calls[c].phase, s.calls[c].phase.m);
  }

  lemma ResendsOwn(s: Client, c: nat)
    requires Enabled(s, Resend(c)) && Unflagged(s) && !s.heap[s.calls[c].phase.m].canceled
    ensures OwnOnly(s, Apply(s, Resend(c)), s.calls[c].phase.m)
  {
    assert WorksWith(s.calls[c].phase, s.calls[c].phase.m);
  }

  lemma UnflaggedSend(s: Client, l: Step)
    requires Enabled(s, l) && Unflagged(s) && (l.TrySend? || l.Resend?)
    ensures Unflagged(Apply(s, l))
  {
    hide Apply, Unflagged, OwnOnly;
    SendsOwn(s, l);
    UnflaggedOwn(s, Apply(s, l), s.calls[l.c].phase.m);
  }

  lemma UnflaggedComplete(s: Client, l: Step)
    requires Enabled(s, l) && Unflagged(s) && l.Complete?
    ensures Unflagged(Apply(s, l))
  {
    var m := s.calls[l.c].phase.m;
    assert WorksWith(s.calls[l.c].phase, m) && !s.heap[m].canceled;
    assert OwnOnly(s, Apply(s, l), m);
    hide Enabled, Apply, Unflagged, OwnOnly;
    UnflaggedOwn(s, Apply(s, l), m);
  }

  lemma UnflaggedAcquire(s: Client, c: nat, m: Ref)
    requires Enabled(s, Acquire(c, m)) && Unflagged(s)
    ensures Unflagged(Apply(s, Acquire(c, m)))
  {
    assert m < |s.heap| ==> !s.heap[m].canceled;
    assert OwnOnly(s, Apply(s, Acquire(c, m)), m);
    hide Enabled, Apply, Unflagged, OwnOnly;
    UnflaggedOwn(s, Apply(s, Acquire(c, m)), m);
  }

  /** A result without a channel is one whose response nobody waits for, so it is not canceled. */
  lemma UnflaggedRelease(s: Client, l: Step, m: Ref)
    requires Enabled(s, l) && Unflagged(s) && m < |s.heap| && (s.heap[m].done.NoChan? ==> s.heap[m].skipResponse)
    requires (l.EvictOldest? && s.queue != [] && m == s.queue[0]) || (l.WriterCheck? && m == s.conns[l.k].writer.m)
    ensures Unflagged(Apply(s, l))
  {
    var s' := Apply(s, l);
    forall x | 0 <= x < |s'.heap| && s'.heap[x].canceled
      ensures Apart(s', x)
    {
      assert Apart(s, x);
    }
  }

  lemma UnflaggedExpire(s: Client, c: nat, m: Ref)
    requires Enabled(s, Expire(c)) && Unflagged(s) && Private(s, c, m) && s.calls[c].phase == Waiting(m)
    ensures Unflagged(Apply(s, Expire(c)))
  {
    var s' := Apply(s, Expire(c));
    forall x | 0 <= x < |s'.heap| && s'.heap[x].canceled
      ensures Apart(s', x)
    {
      if x != m {
        assert Apart(s, x);
      }
    }
  }

  lemma UnflaggedOnce(s: Client, h: Hist, l: Step)
    requires Inv(s, h) && Enabled(s, l) && Unflagged(s) && CarefulOnce(s, l)
    ensures Unflagged(Apply(s, l))
  {
    hide Unflagged, Apply;
    match l
    case EvictOldest(_) =>
      if s.queue == [] {
        UnflaggedIdle(s, l);
      } else {
        assert At(s, h, s.queue[0], Queued) && CellOk(s, h, s.queue[0]);
        UnflaggedRelease(s, l, s.queue[0]);
      }
    case WriterCheck(k) =>
      assert ConnOk(s, h, k) && CellOk(s, h, s.conns[k].writer.m);
      UnflaggedRelease(s, l, s.conns[k].writer.m);
    case Expire(c) =>
      AwaitedIsPrivate(s, h, c);
      UnflaggedExpire(s, c, s.calls[c].phase.m);
    case Cancel(m) => CancelIff(s, m);
    case Invoke(_, _) => UnflaggedInvoke(s, l);
    case Acquire(c, m) => UnflaggedAcquire(s, c, m);
    case TrySend(_) => UnflaggedSend(s, l);
    case Resend(_) => UnflaggedSend(s, l);
    case Complete(_) => UnflaggedComplete(s, l);
    case _ => UnflaggedConnection(s, l);
  }

  lemma UnflaggedIdle(s: Client, l: Step)
    requires Enabled(s, l) && l.EvictOldest? && s.queue == [] && Unflagged(s)
    ensures Unflagged(Apply(s, l))
  {
    var s' := Apply(s, l);
    forall m | 0 <= m < |s'.heap| && s'.heap[m].canceled
      ensures Apart(s', m)
    {
      assert Apart(s, m);
    }
  }

  /**
   As long as callers cancel only what stands apart, as what CallAsync gave them to wait for does, no result with the canceled flag set is up
   for reuse, and no call ever fails as canceled: only its own timer cancels it, and then it does not look any more.
   */
  lemma {:induction false} NobodyElseCancels(codec: Codec, pendingRequests: nat, run: seq<Step>)
    requires Legal(Start(codec, pendingRequests), run) && Careful(Start(codec, pendingRequests), run)
    ensures var s := After(Start(codec, pendingRequests), run);
            && Unflagged(s)
            && (forall m :: m in s.pool && m < |s.heap| ==> !s.heap[m].canceled)
            && (forall c :: 0 <= c < |s.calls| ==> s.calls[c].phase != Finished(Failed(Canceled)))
  {
    if run != [] {
      var front := run[..|run| - 1];
      NobodyElseCancels(codec, pendingRequests, front);
      var h := EveryRunIsSafe(codec, pendingRequests, front);
      UnflaggedOnce(After(Start(codec, pendingRequests), front), h, run[|run| - 1]);
    }
  }

  // ----- canceling a one-way send

  /** A client with one result, its calls and at most one connection. */
  function OneResult(codec: Codec, cell: AsyncResult, pool: multiset<Ref>, queue: seq<Ref>, conns: seq<Conn>,
                     calls: seq<Call>): Client {
    Client(codec, 1, queue, [cell], pool, conns, 0, calls, false)
  }

  const IDLE: Conn := Conn(map[], Idle, false)
  const TOOK: Conn := Conn(map[], Took(0), false)

  function SentOneWay(p0: Packet): Call {
    Call(p0, OneWay, 0, Finished(Sent))
  }

  function OneWayCell(p0: Packet): AsyncResult {
    AsyncResult(Some(p0), None, None, NoChan, false, true)
  }

  lemma OneWayOnce(codec: Codec, p0: Packet) returns (s1: Client, s2: Client)
    ensures var s0 := Start(codec, 1);
            && Enabled(s0, Invoke(p0, OneWay)) && Apply(s0, Invoke(p0, OneWay)) == s1
            && Enabled(s1, Acquire(0, 0)) && Apply(s1, Acquire(0, 0)) == s2 && Enabled(s2, TrySend(0))
            && Apply(s2, TrySend(0)) == OneResult(codec, OneWayCell(p0), multiset{}, [0], [], [SentOneWay(p0)])
  {
    s1 := Apply(Start(codec, 1), Invoke(p0, OneWay));
    s2 := Apply(s1, Acquire(0, 0));
  }

  lemma OneWayQueued(codec: Codec, p0: Packet) returns (run: seq<Step>)
    ensures Legal(Start(codec, 1), run)
    ensures After(Start(codec, 1), run) == OneResult(codec, OneWayCell(p0), multiset{}, [0], [], [SentOneWay(p0)])
  {
    hide Legal, After, Enabled, Apply, Start;
    var s1, s2 := OneWayOnce(codec, p0);
    run := ThreeSteps(Start(codec, 1), Invoke(p0, OneWay), Acquire(0, 0), TrySend(0), s1, s2);
  }

  lemma OneWayTaken(codec: Codec, p0: Packet) returns (more: seq<Step>)
    ensures var s := OneResult(codec, OneWayCell(p0), multiset{}, [0], [], [SentOneWay(p0)]);
            && Legal(s, more)
            && After(s, more) == OneResult(codec, OneWayCell(p0).(canceled := true), multiset{}, [], [TOOK], [SentOneWay(p0)])
  {
    var s := OneResult(codec, OneWayCell(p0), multiset{}, [0], [], [SentOneWay(p0)]);
    var s1 := Apply(s, Cancel(0));
    var s2 := Apply(s1, Connect);
    assert s2 == OneResult(codec, OneWayCell(p0).(canceled := true), multiset{}, [0], [IDLE], [SentOneWay(p0)]);
    more := ThreeSteps(s, Cancel(0), Connect, WriterTake(0), s1, s2);
  }

  lemma OneWayReleased(codec: Codec, p0: Packet)
    ensures var s := OneResult(codec, OneWayCell(p0).(canceled := true), multiset{}, [], [TOOK], [SentOneWay(p0)]);
            && Enabled(s, WriterCheck(0))
            && Apply(s, WriterCheck(0))
               == OneResult(codec, AsyncResult(None, None, None, NoChan, true, true), multiset{0}, [], [IDLE], [SentOneWay(p0)])
  {
  }

  /** The result of a one-way send is queued, canceled by its caller, and taken by a writer, which gives it back. */
  lemma FlagRecycled(codec: Codec, p0: Packet) returns (run: seq<Step>)
    ensures Legal(Start(codec, 1), run)
    ensures After(Start(codec, 1), run)
            == OneResult(codec, AsyncResult(None, None, None, NoChan, true, true), multiset{0}, [], [IDLE], [SentOneWay(p0)])
  {
    hide Legal, After, Start, Enabled, Apply;
    var s0 := Start(codec, 1);
    run := OneWayQueued(codec, p0);
    var more := OneWayTaken(codec, p0);
    RunsChain(s0, run, more);
    OneWayReleased(codec, p0);
    OneMore(s0, run + more, WriterCheck(0));
    run := run + more + [WriterCheck(0)];
  }

  /** The next call gets it from the pool. */
  lemma FlagInUse(codec: Codec, p0: Packet, p1: Packet) returns (more: seq<Step>)
    ensures var s := OneResult(codec, AsyncResult(None, None, None, NoChan, true, true), multiset{0}, [], [IDLE],
                               [SentOneWay(p0)]);
            && Legal(s, more)
            && After(s, more) == OneResult(codec, AsyncResult(Some(p1), None, None, Open, true, false), multiset{}, [0], [IDLE],
                                           [SentOneWay(p0), Call(p1, Sync(0), 0, Waiting(0))])
  {
    var s := OneResult(codec, AsyncResult(None, None, None, NoChan, true, true), multiset{0}, [], [IDLE], [SentOneWay(p0)]);
    var s1 := Apply(s, Invoke(p1, Sync(0)));
    var s2 := Apply(s1, Acquire(1, 0));
    more := ThreeSteps(s, Invoke(p1, Sync(0)), Acquire(1, 0), TrySend(1), s1, s2);
  }

  /** And fails as canceled, though nobody has canceled it. */
  lemma FlagMisfires(codec: Codec, p0: Packet, p1: Packet) returns (more: seq<Step>)
    ensures var s := OneResult(codec, AsyncResult(Some(p1), None, None, Open, true, false), multiset{}, [0], [IDLE],
                               [SentOneWay(p0), Call(p1, Sync(0), 0, Waiting(0))]);
            && Legal(s, more) && |After(s, more).calls| == 2
            && After(s, more).calls[1] == Call(p1, Sync(0), 0, Finished(Failed(Canceled)))
  {
    var s := OneResult(codec, AsyncResult(Some(p1), None, None, Open, true, false), multiset{}, [0], [IDLE],
                       [SentOneWay(p0), Call(p1, Sync(0), 0, Waiting(0))]);
    var s1 := Apply(s, WriterTake(0));
    assert s1.conns == [TOOK];
    var s2 := Apply(s1, WriterCheck(0));
    more := ThreeSteps(s, WriterTake(0), WriterCheck(0), Complete(1), s1, s2);
  }

  /**
   The other way round it goes wrong: the caller of a one-way send cancels the result CallAsync gave it, and a later
   call that gets that result from the pool fails as canceled.
   */
  lemma OneWayCancelMisfires(codec: Codec, p0: Packet, p1: Packet) returns (run: seq<Step>)
    ensures Legal(Start(codec, 1), run)
    ensures var s := After(Start(codec, 1), run);
            |s.calls| == 2 && s.calls[1] == Call(p1, Sync(0), 0, Finished(Failed(Canceled)))
  {
    hide Legal, After, Start;
    var s0 := Start(codec, 1);
    var first := FlagRecycled(codec, p0);
    var second := FlagInUse(codec, p0, p1);
    var third := FlagMisfires(codec, p0, p1);
    RunsChain(s0, first, second);
    RunsChain(s0, first + second, third);
    run := first + second + third;
  }
}
