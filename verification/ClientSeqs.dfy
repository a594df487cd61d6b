/**
 What callers can do so that nothing is lost: no two calls that wait at the same time share a Seq. A retry takes the
 place of its own expired result, which nobody waits for any more.
 */
module ClientSeqs {
  import opened Wrappers
  import opened Bytes
  import opened Encoding
  import opened ClientSteps
  import opened ClientSafety
  import opened ClientRuns
  import opened ClientOutcomes

  /** No two calls that wait at once share a Seq. */
  ghost predicate SeqsApart(s: Client) {
    forall c, c' :: 0 <= c < c' < |s.calls| && Awaited(s.calls[c]) && Awaited(s.calls[c'])
                    ==> s.calls[c].request.ID() != s.calls[c'].request.ID()
  }

  /** `x` was queued after `m` was, or is on its way into a map that `m` is in. */
  ghost predicate Behind(s: Client, m: Ref, x: Ref) {
    || (exists i, j :: 0 <= i < j < |s.queue| && s.queue[i] == m && s.queue[j] == x)
    || (x in s.queue && (InWriter(s, m) || InMap(s, m)))
    || (exists k, id :: 0 <= k < |s.conns| && FiledAt(s.conns[k], id, m) && WritesNow(s.conns[k], x))
  }

  /** Nothing behind the result of a waiting call carries that call's Seq. */
  ghost predicate Spaced(s: Client) {
    forall c, x :: 0 <= c < |s.calls| && Awaited(s.calls[c]) && Behind(s, s.calls[c].phase.m, x) ==> OtherSeq(s, c, x)
  }

  ghost predicate OtherSeq(s: Client, c: nat, x: Ref)
    requires c < |s.calls|
  {
    x < |s.heap| && !s.heap[x].skipResponse && s.heap[x].request.Some?
    ==> s.heap[x].request.value.ID() != s.calls[c].request.ID()
  }

  /** Queued, or in a writer's hands. */
  ghost predicate OnItsWay(s: Client, x: Ref) {
    x in s.queue || InWriter(s, x)
  }

  lemma BehindIsOnItsWay(s: Client, m: Ref, x: Ref)
    requires Behind(s, m, x)
    ensures OnItsWay(s, x) && (m in s.queue || InWriter(s, m) || InMap(s, m))
  {
  }

  lemma OwnWay(s: Client, h: Hist, x: Ref)
    requires Inv(s, h) && OnItsWay(s, x)
    ensures x < |s.heap| && (h.own[x].place.Queued? || h.own[x].place.Writing?) && x !in s.pool
  {
    if x in s.queue {
      var i :| 0 <= i < |s.queue| && s.queue[i] == x;
      assert At(s, h, s.queue[i], Queued);
    } else {
      var k :| 0 <= k < |s.conns| && WritesNow(s.conns[k], x);
      assert ConnOk(s, h, k);
    }
  }

  lemma OwnFiled(s: Client, h: Hist, m: Ref)
    requires Inv(s, h) && InMap(s, m)
    ensures m < |s.heap| && h.own[m].place.Pending?
  {
    var k, id :| 0 <= k < |s.conns| && FiledAt(s.conns[k], id, m);
    assert ConnOk(s, h, k) && At(s, h, s.conns[k].pending[id], Pending(k, id));
  }

  /** A result still in its caller's hands is behind nothing, and nothing is behind it. */
  lemma HeldIsNowhere(s: Client, h: Hist, m: Ref, x: Ref)
    requires Inv(s, h) && m < |s.heap| && h.own[m].place.Held?
    ensures !OnItsWay(s, m) && !InMap(s, m) && !Behind(s, m, x) && !Behind(s, x, m)
  {
    if OnItsWay(s, m) {
      OwnWay(s, h, m);
    }
    if InMap(s, m) {
      OwnFiled(s, h, m);
    }
  }

  // ----- a step puts nothing behind anything but what it sends

  lemma BehindForQueue(s: Client, l: Step, m: Ref, x: Ref)
    requires Enabled(s, l) && (l.TrySend? || l.Resend? || l.EvictOldest?) && Behind(Apply(s, l), m, x)
    ensures Behind(s, m, x) || (!l.EvictOldest? && Apply(s, l).queue == s.queue + [x] && x == s.calls[l.c].phase.m)
  {
    var s' := Apply(s, l);
    assert s'.conns == s.conns;
    assert s'.queue == s.queue || (!l.EvictOldest? && s'.queue == s.queue + [s.calls[l.c].phase.m])
           || (s.queue != [] && s'.queue == s.queue[1..]);
    hide Apply, Enabled;
    SameWriters(s, s', m);
    if i, j :| 0 <= i < j < |s'.queue| && s'.queue[i] == m && s'.queue[j] == x {
      if s'.queue == s.queue[1..] {
        assert s.queue[i + 1] == m && s.queue[j + 1] == x;
      } else if j < |s.queue| {
        assert s.queue[i] == m && s.queue[j] == x;
      }
    }
    if k, id :| 0 <= k < |s'.conns| && FiledAt(s'.conns[k], id, m) && WritesNow(s'.conns[k], x) {
      assert FiledAt(s.conns[k], id, m) && WritesNow(s.conns[k], x);
    }
  }

  lemma SameWriters(s: Client, s': Client, m: Ref)
    requires s'.conns == s.conns
    ensures InWriter(s', m) <==> InWriter(s, m)
    ensures InMap(s', m) <==> InMap(s, m)
  {
  }

  lemma BehindForCallers(s: Client, l: Step, m: Ref, x: Ref)
    requires Enabled(s, l) && (l.Invoke? || l.Acquire? || l.Complete? || l.Expire? || l.Cancel?) && Behind(Apply(s, l), m, x)
    ensures Behind(s, m, x)
  {
    var s' := Apply(s, l);
    assert s'.conns == s.conns && s'.queue == s.queue;
    hide Apply, Enabled;
    SameWriters(s, s', m);
    if k, id :| 0 <= k < |s'.conns| && FiledAt(s'.conns[k], id, m) && WritesNow(s'.conns[k], x) {
      assert FiledAt(s.conns[k], id, m) && WritesNow(s.conns[k], x);
    }
  }

  lemma BehindForTake(s: Client, k: nat, m: Ref, x: Ref)
    requires Enabled(s, WriterTake(k)) && Behind(Apply(s, WriterTake(k)), m, x)
    ensures Behind(s, m, x)
  {
    var s', head := Apply(s, WriterTake(k)), s.queue[0];
    assert s'.queue == s.queue[1..] && s'.conns == s.conns[k := s.conns[k].(writer := Took(head))];
    hide Apply, Enabled;
    assert forall y :: y in s'.queue ==> y in s.queue;
    if i, j :| 0 <= i < j < |s'.queue| && s'.queue[i] == m && s'.queue[j] == x {
      assert s.queue[i + 1] == m && s.queue[j + 1] == x;
    } else if x in s'.queue && InWriter(s', m) {
      var y :| 0 <= y < |s'.conns| && WritesNow(s'.conns[y], m);
      var j :| 0 <= j < |s'.queue| && s'.queue[j] == x;
      assert s.queue[j + 1] == x;
      assert y != k ==> WritesNow(s.conns[y], m);
      assert y == k ==> s.queue[0] == m;
    } else if x in s'.queue && InMap(s', m) {
      var y, id :| 0 <= y < |s'.conns| && FiledAt(s'.conns[y], id, m);
      assert FiledAt(s.conns[y], id, m);
    } else {
      var y, id :| 0 <= y < |s'.conns| && FiledAt(s'.conns[y], id, m) && WritesNow(s'.conns[y], x);
      assert FiledAt(s.conns[y], id, m);
      assert y != k ==> WritesNow(s.conns[y], x);
      assert y == k ==> s.queue[0] == x;
    }
  }

  /** One connection has changed, and its map has gained at most what its writer had. */
  ghost predicate OneConn(s: Client, s': Client, k: nat) {
    && k < |s.conns| == |s'.conns| && s'.queue == s.queue
    && (forall y :: 0 <= y < |s.conns| && y != k ==> s'.conns[y] == s.conns[y])
    && (forall x :: WritesNow(s'.conns[k], x) ==> WritesNow(s.conns[k], x))
    && (forall id, m :: FiledAt(s'.conns[k], id, m) ==>
          FiledAt(s.conns[k], id, m) || (WritesNow(s.conns[k], m) && forall x :: !WritesNow(s'.conns[k], x)))
  }

  lemma BehindForOne(s: Client, s': Client, k: nat, m: Ref, x: Ref)
    requires OneConn(s, s', k) && Behind(s', m, x)
    ensures Behind(s, m, x)
  {
    if x in s'.queue && InWriter(s', m) {
      var y :| 0 <= y < |s'.conns| && WritesNow(s'.conns[y], m);
      assert WritesNow(s.conns[y], m);
    } else if x in s'.queue && InMap(s', m) {
      var y, id :| 0 <= y < |s'.conns| && FiledAt(s'.conns[y], id, m);
      assert FiledAt(s.conns[y], id, m) || WritesNow(s.conns[y], m);
    } else if y, id :| 0 <= y < |s'.conns| && FiledAt(s'.conns[y], id, m) && WritesNow(s'.conns[y], x) {
      assert FiledAt(s.conns[y], id, m) && WritesNow(s.conns[y], x);
    }
  }

  lemma WriterChanges(s: Client, l: Step)
    requires Enabled(s, l) && !Apply(s, l).panicked
    requires l.WriterCheck? || l.WriterFile? || l.WriterSweep? || l.WriterRecount? || l.WriterEncode? || l.WriterStop?
    ensures OneConn(s, Apply(s, l), l.k)
  {
    if l.WriterFile? {
      FileChanges(s, l.k);
    }
  }

  lemma FileChanges(s: Client, k: nat)
    requires Enabled(s, WriterFile(k)) && !Apply(s, WriterFile(k)).panicked
    ensures OneConn(s, Apply(s, WriterFile(k)), k)
  {
    var m := s.conns[k].writer.m;
    assert WritesNow(s.conns[k], m);
  }

  lemma ReaderChanges(s: Client, l: Step)
    requires Enabled(s, l) && !Apply(s, l).panicked && (l.ReaderDeliver? || l.ReaderStop? || l.TeardownOne?)
    ensures OneConn(s, Apply(s, l), l.k)
  {
  }

  lemma BehindForConnect(s: Client, m: Ref, x: Ref)
    requires Enabled(s, Connect) && Behind(Apply(s, Connect), m, x)
    ensures Behind(s, m, x)
  {
    var s' := Apply(s, Connect);
    if x in s'.queue && InWriter(s', m) {
      var y :| 0 <= y < |s'.conns| && WritesNow(s'.conns[y], m);
      assert WritesNow(s.conns[y], m);
    } else if x in s'.queue && InMap(s', m) {
      var y, id :| 0 <= y < |s'.conns| && FiledAt(s'.conns[y], id, m);
      assert FiledAt(s.conns[y], id, m);
    } else if y, id :| 0 <= y < |s'.conns| && FiledAt(s'.conns[y], id, m) && WritesNow(s'.conns[y], x) {
      assert FiledAt(s.conns[y], id, m) && WritesNow(s.conns[y], x);
    }
  }

  lemma BehindForReader(s: Client, l: Step, m: Ref, x: Ref)
    requires Enabled(s, l) && !Apply(s, l).panicked && (l.ReaderDeliver? || l.ReaderStop? || l.TeardownOne?)
    requires Behind(Apply(s, l), m, x)
    ensures Behind(s, m, x)
  {
    ReaderChanges(s, l);
    hide Apply, Enabled, OneConn, Behind;
    BehindForOne(s, Apply(s, l), l.k, m, x);
  }

  lemma BehindBefore(s: Client, l: Step, m: Ref, x: Ref)
    requires Enabled(s, l) && !Apply(s, l).panicked && Behind(Apply(s, l), m, x)
    ensures Behind(s, m, x) || ((l.TrySend? || l.Resend?) && x == s.calls[l.c].phase.m && Apply(s, l).queue == s.queue + [x])
  {
    hide Behind, Apply, OneConn;
    match l
    case TrySend(_) => BehindForQueue(s, l, m, x);
    case Resend(_) => BehindForQueue(s, l, m, x);
    case EvictOldest(_) => BehindForQueue(s, l, m, x);
    case Invoke(_, _) => BehindForCallers(s, l, m, x);
    case Acquire(_, _) => BehindForCallers(s, l, m, x);
    case Complete(_) => BehindForCallers(s, l, m, x);
    case Expire(_) => BehindForCallers(s, l, m, x);
    case Cancel(_) => BehindForCallers(s, l, m, x);
    case Connect => BehindForConnect(s, m, x);
    case WriterTake(k) => BehindForTake(s, k, m, x);
    case ReaderDeliver(_, _) => BehindForReader(s, l, m, x);
    case ReaderStop(_) => BehindForReader(s, l, m, x);
    case TeardownOne(_, _, _) => BehindForReader(s, l, m, x);
    case _ =>
      WriterChanges(s, l);
      BehindForOne(s, Apply(s, l), l.k, m, x);
  }

  /** What is on its way keeps its request, unless it was a one-way send that is given back. */
  ghost predicate Same(s: Client, s': Client, x: Ref) {
    && x < |s.heap| && x < |s'.heap| && s'.heap[x].skipResponse == s.heap[x].skipResponse
    && (s'.heap[x].skipResponse || s'.heap[x].request == s.heap[x].request)
  }

  lemma RequestStays(s: Client, h: Hist, l: Step, x: Ref)
    requires Inv(s, h) && Enabled(s, l) && OnItsWay(s, x)
    ensures Same(s, Apply(s, l), x)
  {
    OwnWay(s, h, x);
    assert CellOk(s, h, x);
    if l.Acquire? || l.TrySend? || l.Resend? || l.Complete? {
      assert CallOk(s, h, l.c);
      KeptByCaller(s, l, x);
    } else if l.EvictOldest? || l.WriterCheck? {
      KeptByRelease(s, l, x);
    } else {
      KeptByOthers(s, l, x);
    }
  }

  lemma KeptByCaller(s: Client, l: Step, x: Ref)
    requires Enabled(s, l) && (l.Acquire? || l.TrySend? || l.Resend? || l.Complete?)
    requires x < |s.heap| && x !in s.pool && !s.heap[x].done.Closed?
    requires l.TrySend? || l.Resend? ==> s.calls[l.c].phase.m != x
    ensures Same(s, Apply(s, l), x)
  {
  }

  lemma KeptByRelease(s: Client, l: Step, x: Ref)
    requires Enabled(s, l) && (l.EvictOldest? || l.WriterCheck?)
    requires x < |s.heap| && (s.heap[x].done.NoChan? ==> s.heap[x].skipResponse)
    ensures Same(s, Apply(s, l), x)
  {
  }

  lemma KeptByOthers(s: Client, l: Step, x: Ref)
    requires Enabled(s, l) && x < |s.heap|
    requires !l.Acquire? && !l.TrySend? && !l.Resend? && !l.Complete? && !l.EvictOldest? && !l.WriterCheck?
    ensures Same(s, Apply(s, l), x)
  {
  }

  // ----- the result of a waiting call is followed by no other of its Seq

  /** A send puts the result of a call that now waits, or of a one-way send, at the end of the queue. */
  lemma SentIsAwaited(s: Client, h: Hist, l: Step, x: Ref)
    requires Inv(s, h) && Enabled(s, l) && (l.TrySend? || l.Resend?) && x == s.calls[l.c].phase.m
    requires Apply(s, l).queue == s.queue + [x]
    ensures h.own[x].place.Held? && x < |s.heap| && Apply(s, l).heap == s.heap
    ensures |Apply(s, l).calls| == |s.calls| && Apply(s, l).calls[l.c].request == s.calls[l.c].request
    ensures s.heap[x].request == Some(s.calls[l.c].request)
    ensures s.heap[x].skipResponse || (Awaited(Apply(s, l).calls[l.c]) && Apply(s, l).calls[l.c].phase.m == x)
  {
    assert CallOk(s, h, l.c);
    assert |s.queue + [x]| == |s.queue| + 1;
  }

  lemma RequestsStay(s: Client, l: Step, c: nat)
    requires Enabled(s, l) && c < |s.calls|
    ensures c < |Apply(s, l).calls| && Apply(s, l).calls[c].request == s.calls[c].request
  {
  }

  lemma SpacedOnce(s: Client, h: Hist, l: Step)
    requires Inv(s, h) && Enabled(s, l) && Spaced(s) && SeqsApart(Apply(s, l)) && !Apply(s, l).panicked
    ensures Spaced(Apply(s, l))
  {
    var s' := Apply(s, l);
    hide Inv, Behind, OtherSeq, Apply, Enabled, OnItsWay;
    forall c, x | 0 <= c < |s'.calls| && Awaited(s'.calls[c]) && Behind(s', s'.calls[c].phase.m, x)
      ensures OtherSeq(s', c, x)
    {
      var m := s'.calls[c].phase.m;
      BehindBefore(s, l, m, x);
      WaitsBySending(s, l, c);
      if Behind(s, m, x) {
        StillOther(s, h, l, c, x);
      } else {
        NewIsOther(s, h, l, c, x);
      }
    }
  }

  lemma StillOther(s: Client, h: Hist, l: Step, c: nat, x: Ref)
    requires Inv(s, h) && Enabled(s, l) && Spaced(s) && c < |Apply(s, l).calls| && Awaited(Apply(s, l).calls[c])
    requires var m := Apply(s, l).calls[c].phase.m;
             && Behind(s, m, x)
             && ((c < |s.calls| && Apply(s, l).calls[c].phase == s.calls[c].phase)
                 || (Apply(s, l).queue == s.queue + [m] && m < |Apply(s, l).heap|))
    ensures OtherSeq(Apply(s, l), c, x)
  {
    var s' := Apply(s, l);
    var m := s'.calls[c].phase.m;
    BehindIsOnItsWay(s, m, x);
    if c < |s.calls| && s'.calls[c].phase == s.calls[c].phase {
      RequestStays(s, h, l, x);
      RequestsStay(s, l, c);
      assert OtherSeq(s, c, x);
    } else {
      QueuedWasHeld(s, h, l, m);
      HeldIsNowhere(s, h, m, x);
    }
  }

  lemma QueuedWasHeld(s: Client, h: Hist, l: Step, m: Ref)
    requires Inv(s, h) && Enabled(s, l) && Apply(s, l).queue == s.queue + [m]
    ensures (l.TrySend? || l.Resend?) && m == s.calls[l.c].phase.m && m < |s.heap| && h.own[m].place.Held?
  {
    assert |s.queue + [m]| == |s.queue| + 1;
    assert (s.queue + [m])[|s.queue|] == m;
    if l.TrySend? || l.Resend? {
      assert CallOk(s, h, l.c);
    }
  }

  lemma NewIsOther(s: Client, h: Hist, l: Step, c: nat, x: Ref)
    requires Inv(s, h) && Enabled(s, l) && SeqsApart(Apply(s, l)) && c < |Apply(s, l).calls| && Awaited(Apply(s, l).calls[c])
    requires (l.TrySend? || l.Resend?) && x == s.calls[l.c].phase.m && Apply(s, l).queue == s.queue + [x]
    requires Behind(Apply(s, l), Apply(s, l).calls[c].phase.m, x) && !Apply(s, l).panicked
    ensures OtherSeq(Apply(s, l), c, x)
  {
    var s' := Apply(s, l);
    SentIsAwaited(s, h, l, x);
    if c == l.c && !s.heap[x].skipResponse {
      HeldIsNowhere(s, h, x, x);
      NotBehindItself(s, s', x);
    }
  }

  lemma NotBehindItself(s: Client, s': Client, x: Ref)
    requires s'.queue == s.queue + [x] && s'.conns == s.conns && !OnItsWay(s, x) && !InMap(s, x)
    ensures !Behind(s', x, x)
  {
    SameWriters(s, s', x);
    assert forall i :: 0 <= i < |s.queue| ==> s'.queue[i] == s.queue[i];
  }

  /** Then filing a result drops nothing that is waited for. */
  lemma SpacedLosesNothing(s: Client, h: Hist, l: Step)
    requires Inv(s, h) && Enabled(s, l) && Spaced(s) && !l.WriterSweep?
    ensures !Loses(s, l)
  {
    forall c | 0 <= c < |s.calls| && Awaited(s.calls[c])
      ensures !Drops(s, l, s.calls[c].phase.m)
    {
      if Drops(s, l, s.calls[c].phase.m) {
        FilesItsOwn(s, h, l.k, c);
      }
    }
  }

  lemma FilesItsOwn(s: Client, h: Hist, k: nat, c: nat)
    requires Inv(s, h) && Enabled(s, WriterFile(k)) && c < |s.calls| && Awaited(s.calls[c])
    requires Drops(s, WriterFile(k), s.calls[c].phase.m)
    ensures Behind(s, s.calls[c].phase.m, s.conns[k].writer.m) && !OtherSeq(s, c, s.conns[k].writer.m)
  {
    var x, m := s.conns[k].writer.m, s.calls[c].phase.m;
    var id := s.heap[x].request.value.ID();
    assert ConnOk(s, h, k) && CallOk(s, h, c);
    assert WritesNow(s.conns[k], x) && FiledAt(s.conns[k], id, m);
    assert At(s, h, s.conns[k].pending[id], Pending(k, id)) && CellOk(s, h, m);
  }

  // ----- over a whole run

  /** In no state do two waiting calls share a Seq, and no step is an over-limit sweep. */
  ghost predicate Orderly(s: Client, run: seq<Step>)
    requires Legal(s, run)
  {
    && SeqsApart(After(s, run))
    && (run == [] || (Orderly(s, run[..|run| - 1]) && !run[|run| - 1].WriterSweep?))
  }

  /** Such a run loses nothing, however often it retries. */
  lemma {:induction false} OrderlyLosesNothing(codec: Codec, pendingRequests: nat, run: seq<Step>)
    requires Legal(Start(codec, pendingRequests), run) && Orderly(Start(codec, pendingRequests), run)
    ensures Spaced(After(Start(codec, pendingRequests), run)) && Lossless(Start(codec, pendingRequests), run)
    ensures NeverLost(Start(codec, pendingRequests), run)
  {
    if run != [] {
      var front := run[..|run| - 1];
      OrderlyLosesNothing(codec, pendingRequests, front);
      var h := EveryRunIsSafe(codec, pendingRequests, front);
      NeverPanics(codec, pendingRequests, run);
      hide Inv, Spaced, SeqsApart, Loses, NoneLost, Enabled, Apply;
      SpacedOnce(After(Start(codec, pendingRequests), front), h, run[|run| - 1]);
      SpacedLosesNothing(After(Start(codec, pendingRequests), front), h, run[|run| - 1]);
    }
    NothingIsLost(codec, pendingRequests, run);
  }
}
