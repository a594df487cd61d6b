/**
 Runs of the client machine, whatever packets its readers are given: ownership and bounds in every reachable
 state, and what `pendingRequestsCount` counts.
 */
module ClientRuns {
  import opened Wrappers
  import opened Bytes
  import opened Encoding
  import opened ClientSteps
  import opened ClientSafety

  ghost predicate Legal(s: Client, run: seq<Step>)
    decreases |run|, 0
  {
    run == [] || (Legal(s, run[..|run| - 1]) && Enabled(After(s, run[..|run| - 1]), run[|run| - 1]))
  }

  ghost function After(s: Client, run: seq<Step>): Client
    requires Legal(s, run)
    decreases |run|, 1
  {
    if run == [] then s else Apply(After(s, run[..|run| - 1]), run[|run| - 1])
  }

  /** No interleaving closes a channel twice, puts a result in two places, or outgrows the limits. */
  lemma {:induction false} EveryRunIsSafe(codec: Codec, pendingRequests: nat, run: seq<Step>) returns (h: Hist)
    requires Legal(Start(codec, pendingRequests), run)
    ensures Inv(After(Start(codec, pendingRequests), run), h)
    ensures var s := After(Start(codec, pendingRequests), run);
            !s.panicked && Exclusive(s) && Bounded(s)
  {
    var s0 := Start(codec, pendingRequests);
    if run == [] {
      h := Hist([], {}, {});
      StartIsGood(codec, pendingRequests);
    } else {
      var before := EveryRunIsSafe(codec, pendingRequests, run[..|run| - 1]);
      h := Keeps(After(s0, run[..|run| - 1]), before, run[|run| - 1]);
    }
    InvGives(After(s0, run), h);
  }

  // ----- the pending counter

  function Total(conns: seq<Conn>): nat {
    if conns == [] then 0 else Total(conns[..|conns| - 1]) + |conns[|conns| - 1].pending|
  }

  lemma {:induction false} TotalUpdate(conns: seq<Conn>, k: nat, conn: Conn)
    requires k < |conns|
    ensures Total(conns[k := conn]) == Total(conns) - |conns[k].pending| + |conn.pending|
  {
    var n := |conns| - 1;
    var updated := conns[k := conn];
    if k == n {
      assert updated[..n] == conns[..n];
    } else {
      assert updated[..n] == conns[..n][k := conn];
      TotalUpdate(conns[..n], k, conn);
    }
  }

  /**
   By how much a step moves the counter away from the number of pending entries. Filing over an entry that is
   still there counts it twice; the over-limit sweep counts off every entry it walks but removes at most one.
   */
  function Drift(s: Client, l: Step): int
    requires Enabled(s, l)
  {
    match l
    case WriterFile(k) =>
      var conn := s.conns[k];
      var request := s.heap[conn.writer.m].request;
      if request.Some? && request.value.ID() in conn.pending then 1 else 0
    case WriterSweep(k, unvisited) =>
      var conn := s.conns[k];
      var removed := if AnyCanceled(s, conn.pending) && conn.writer.id in conn.pending then 1 else 0;
      removed - (|conn.pending| - if unvisited then 1 else 0)
    case _ => 0
  }

  ghost function RunDrift(s: Client, run: seq<Step>): int
    requires Legal(s, run)
  {
    if run == [] then 0
    else RunDrift(s, run[..|run| - 1]) + Drift(After(s, run[..|run| - 1]), run[|run| - 1])
  }

  /** What the counter is off by, before reduction to a uint32. */
  function Offset(s: Client): int {
    s.count - Total(s.conns)
  }

  lemma WordOf(x: int) returns (wraps: int)
    ensures U32(x) == x - wraps * TWO_32
  {
    wraps := x / TWO_32;
  }

  lemma CounterFile(s: Client, k: nat) returns (wraps: int)
    requires Enabled(s, WriterFile(k)) && !Apply(s, WriterFile(k)).panicked
    ensures Offset(Apply(s, WriterFile(k))) == Offset(s) + Drift(s, WriterFile(k)) - wraps * TWO_32
  {
    var conn := s.conns[k];
    var s' := Apply(s, WriterFile(k));
    TotalUpdate(s.conns, k, s'.conns[k]);
    PendingGrows(conn.pending, s.heap[conn.writer.m].request.value.ID(), conn.writer.m);
    wraps := WordOf(s.count + 1);
  }

  lemma SweepRemoves(s: Client, k: nat, unvisited: bool)
    requires Enabled(s, WriterSweep(k, unvisited))
    ensures var conn := s.conns[k];
            Total(DoSweep(s, k, unvisited).conns)
            == Total(s.conns) - if AnyCanceled(s, conn.pending) && conn.writer.id in conn.pending then 1 else 0
  {
    TotalUpdate(s.conns, k, DoSweep(s, k, unvisited).conns[k]);
    PendingShrinks(s.conns[k].pending, s.conns[k].writer.id);
  }

  lemma CounterSweep(s: Client, k: nat, unvisited: bool) returns (wraps: int)
    requires Enabled(s, WriterSweep(k, unvisited))
    ensures Offset(Apply(s, WriterSweep(k, unvisited))) == Offset(s) + Drift(s, WriterSweep(k, unvisited)) - wraps * TWO_32
  {
    SweepRemoves(s, k, unvisited);
    wraps := WordOf(s.count - (|s.conns[k].pending| - if unvisited then 1 else 0));
  }

  lemma CounterDeliver(s: Client, k: nat, p: Packet) returns (wraps: int)
    requires Enabled(s, ReaderDeliver(k, p))
    ensures Offset(Apply(s, ReaderDeliver(k, p))) == Offset(s) - wraps * TWO_32
  {
    var s' := Apply(s, ReaderDeliver(k, p));
    wraps := 0;
    if p.ID() in s.conns[k].pending {
      TotalUpdate(s.conns, k, s'.conns[k]);
      PendingShrinks(s.conns[k].pending, p.ID());
      wraps := WordOf(s.count - 1);
    }
  }

  lemma CounterTeardown(s: Client, k: nat, id: uint32, err: Option<CallError>) returns (wraps: int)
    requires Enabled(s, TeardownOne(k, id, err))
    ensures Offset(Apply(s, TeardownOne(k, id, err))) == Offset(s) - wraps * TWO_32
  {
    var s' := Apply(s, TeardownOne(k, id, err));
    TotalUpdate(s.conns, k, s'.conns[k]);
    PendingShrinks(s.conns[k].pending, id);
    wraps := WordOf(s.count - 1);
  }

  lemma TotalAppend(conns: seq<Conn>, conn: Conn)
    ensures Total(conns + [conn]) == Total(conns) + |conn.pending|
  {
    assert (conns + [conn])[..|conns|] == conns;
  }

  lemma CounterOther(s: Client, l: Step)
    requires Enabled(s, l) && !l.WriterFile? && !l.WriterSweep? && !l.ReaderDeliver? && !l.TeardownOne?
    ensures Offset(Apply(s, l)) == Offset(s)
  {
    hide Total;
    var s' := Apply(s, l);
    if l.Connect? {
      TotalAppend(s.conns, Conn(map[], Idle, false));
    } else if l.WriterTake? || l.WriterCheck? || l.WriterRecount? || l.WriterEncode? || l.WriterStop? || l.ReaderStop? {
      TotalUpdate(s.conns, l.k, s'.conns[l.k]);
    }
  }

  lemma CounterStep(s: Client, l: Step) returns (wraps: int)
    requires Enabled(s, l) && !Apply(s, l).panicked
    ensures Offset(Apply(s, l)) == Offset(s) + Drift(s, l) - wraps * TWO_32
  {
    match l
    case WriterFile(k) => wraps := CounterFile(s, k);
    case WriterSweep(k, unvisited) => wraps := CounterSweep(s, k, unvisited);
    case ReaderDeliver(k, p) => wraps := CounterDeliver(s, k, p);
    case TeardownOne(k, id, err) => wraps := CounterTeardown(s, k, id, err);
    case _ => wraps := 0; CounterOther(s, l);
  }

  lemma {:induction false} NeverPanics(codec: Codec, pendingRequests: nat, run: seq<Step>)
    requires Legal(Start(codec, pendingRequests), run)
    ensures !After(Start(codec, pendingRequests), run).panicked
  {
    var _ := EveryRunIsSafe(codec, pendingRequests, run);
  }

  lemma {:induction false} OffsetLaw(codec: Codec, pendingRequests: nat, run: seq<Step>) returns (wraps: int)
    requires Legal(Start(codec, pendingRequests), run)
    ensures var s0 := Start(codec, pendingRequests);
            Offset(After(s0, run)) == RunDrift(s0, run) - wraps * TWO_32
  {
    wraps := 0;
    if run != [] {
      var s := After(Start(codec, pendingRequests), run[..|run| - 1]);
      var earlier := OffsetLaw(codec, pendingRequests, run[..|run| - 1]);
      NeverPanics(codec, pendingRequests, run);
      var now := CounterStep(s, run[|run| - 1]);
      wraps := earlier + now;
    }
  }

  /** Over every run the counter is the number of pending entries plus the drift, on uint32. */
  lemma {:induction false} CounterLaw(codec: Codec, pendingRequests: nat, run: seq<Step>)
    requires Legal(Start(codec, pendingRequests), run)
    ensures var s0 := Start(codec, pendingRequests);
            After(s0, run).count == U32(Total(After(s0, run).conns) + RunDrift(s0, run))
  {
    var s := After(Start(codec, pendingRequests), run);
    var wraps := OffsetLaw(codec, pendingRequests, run);
    var drift := RunDrift(Start(codec, pendingRequests), run);
    assert s.count - Total(s.conns) == drift - wraps * TWO_32;
    SameWord(Total(s.conns) + drift, s.count, wraps);
  }

  lemma SameWord(x: int, word: uint32, turns: int)
    requires x == word + turns * TWO_32
    ensures U32(x) == word
  {
  }

  /** Has the run filed a Seq that was still pending, or entered the over-limit sweep? */
  ghost predicate Steady(s: Client, run: seq<Step>)
    requires Legal(s, run)
  {
    run == [] ||
    (var front, l := run[..|run| - 1], run[|run| - 1];
     Steady(s, front) && !l.WriterSweep? && (l.WriterFile? ==> Drift(After(s, front), l) == 0))
  }

  /** If it has done neither, the counter is exactly the number of pending entries. */
  lemma {:induction false} CounterConserved(codec: Codec, pendingRequests: nat, run: seq<Step>)
    requires Legal(Start(codec, pendingRequests), run) && Steady(Start(codec, pendingRequests), run)
    ensures var s := After(Start(codec, pendingRequests), run);
            s.count == U32(Total(s.conns))
  {
    NoDrift(Start(codec, pendingRequests), run);
    CounterLaw(codec, pendingRequests, run);
  }

  lemma {:induction false} NoDrift(s: Client, run: seq<Step>)
    requires Legal(s, run) && Steady(s, run)
    ensures RunDrift(s, run) == 0
  {
    if run != [] {
      NoDrift(s, run[..|run| - 1]);
    }
  }

  // ----- two requests with one Seq

  lemma OneMore(s0: Client, run: seq<Step>, l: Step)
    requires Legal(s0, run) && Enabled(After(s0, run), l)
    ensures Legal(s0, run + [l]) && After(s0, run + [l]) == Apply(After(s0, run), l)
  {
    assert (run + [l])[..|run|] == run;
  }

  function TwoCalls(codec: Codec, p0: Packet, p1: Packet, queue: seq<Ref>, conns: seq<Conn>, count: uint32): Client {
    Client(codec, 2, queue,
           [AsyncResult(Some(p0), None, None, Open, false, false), AsyncResult(Some(p1), None, None, Open, false, false)],
           multiset{}, conns, count, [Call(p0, Sync(0), 0, Waiting(0)), Call(p1, Sync(0), 0, Waiting(1))], false)
  }

  lemma AskedOnce(s: Client, p: Packet) returns (s1: Client, s2: Client, t: Client)
    requires !s.panicked && |s.queue| < s.pendingRequests
    ensures Enabled(s, Invoke(p, Sync(0))) && s1 == Apply(s, Invoke(p, Sync(0)))
    ensures Enabled(s1, Acquire(|s.calls|, |s.heap|)) && s2 == Apply(s1, Acquire(|s.calls|, |s.heap|))
    ensures Enabled(s2, TrySend(|s.calls|)) && t == Apply(s2, TrySend(|s.calls|))
    ensures t == s.(queue := s.queue + [|s.heap|],
                    heap := s.heap + [AsyncResult(Some(p), None, None, Open, false, false)],
                    calls := s.calls + [Call(p, Sync(0), 0, Waiting(|s.heap|))])
  {
    s1 := Apply(s, Invoke(p, Sync(0)));
    s2 := Apply(s1, Acquire(|s.calls|, |s.heap|));
    t := Apply(s2, TrySend(|s.calls|));
  }

  lemma Unmoved(s: Client)
    ensures Legal(s, []) && After(s, []) == s
  {
  }

  /** Three steps make a run. */
  lemma ThreeSteps(s: Client, a: Step, b: Step, c: Step, s1: Client, s2: Client) returns (steps: seq<Step>)
    requires Enabled(s, a) && Apply(s, a) == s1 && Enabled(s1, b) && Apply(s1, b) == s2 && Enabled(s2, c)
    ensures Legal(s, steps) && After(s, steps) == Apply(s2, c) && steps == [a, b, c]
  {
    hide Legal, After, Enabled, Apply;
    Unmoved(s);
    OneMore(s, [], a);
    OneMore(s, [] + [a], b);
    OneMore(s, [] + [a] + [b], c);
    steps := [] + [a] + [b] + [c];
  }

  /** A call asks for `p` with a new result, and there is room in the queue. */
  lemma Asked(s: Client, p: Packet) returns (steps: seq<Step>, t: Client)
    requires !s.panicked && |s.queue| < s.pendingRequests
    ensures t == s.(queue := s.queue + [|s.heap|],
                    heap := s.heap + [AsyncResult(Some(p), None, None, Open, false, false)],
                    calls := s.calls + [Call(p, Sync(0), 0, Waiting(|s.heap|))])
    ensures Legal(s, steps) && After(s, steps) == t
    ensures steps == [Invoke(p, Sync(0)), Acquire(|s.calls|, |s.heap|), TrySend(|s.calls|)]
  {
    hide Legal, After, Enabled, Apply;
    var s1, s2;
    s1, s2, t := AskedOnce(s, p);
    steps := ThreeSteps(s, Invoke(p, Sync(0)), Acquire(|s.calls|, |s.heap|), TrySend(|s.calls|), s1, s2);
  }

  lemma BothQueued(codec: Codec, p0: Packet, p1: Packet) returns (run: seq<Step>)
    ensures Legal(Start(codec, 2), run) && After(Start(codec, 2), run) == TwoCalls(codec, p0, p1, [0, 1], [], 0)
  {
    hide Legal, After, Enabled, Apply;
    var s0 := Start(codec, 2);
    var first, s1 := Asked(s0, p0);
    var second, s2 := Asked(s1, p1);
    RunsChain(s0, first, second);
    run := first + second;
  }

  lemma WriterTurnOnce(s: Client, m: Ref, conn: Conn) returns (s1: Client, s2: Client, t: Client)
    requires !s.panicked && s.pendingRequests == 2 && s.conns == [conn] && conn.writer.Idle? && |conn.pending| <= 1
    requires s.queue != [] && s.queue[0] == m && m < |s.heap| && s.heap[m].request.Some?
    requires !s.heap[m].canceled && !s.heap[m].skipResponse
    ensures Enabled(s, WriterTake(0)) && s1 == Apply(s, WriterTake(0))
    ensures Enabled(s1, WriterCheck(0)) && s2 == Apply(s1, WriterCheck(0))
    ensures Enabled(s2, WriterFile(0)) && t == Apply(s2, WriterFile(0))
    ensures t == s.(queue := s.queue[1..], count := U32(s.count + 1),
                    conns := [Conn(conn.pending[s.heap[m].request.value.ID() := m], Encoding(m), conn.readerDone)])
  {
    s1 := Apply(s, WriterTake(0));
    assert s1.conns == [conn.(writer := Took(m))];
    s2 := Apply(s1, WriterCheck(0));
    assert s2.conns == [conn.(writer := Filing(m))];
    t := FiledOnce(s2, m, conn.(writer := Filing(m)));
  }

  lemma FiledOnce(s: Client, m: Ref, conn: Conn) returns (t: Client)
    requires !s.panicked && s.pendingRequests == 2 && s.conns == [conn] && conn.writer == Filing(m) && |conn.pending| <= 1
    requires m < |s.heap| && s.heap[m].request.Some?
    ensures Enabled(s, WriterFile(0)) && t == Apply(s, WriterFile(0))
    ensures t == s.(count := U32(s.count + 1),
                    conns := [Conn(conn.pending[s.heap[m].request.value.ID() := m], Encoding(m), conn.readerDone)])
  {
    t := Apply(s, WriterFile(0));
  }

  /** An idle writer takes the one request at hand, and files it. */
  lemma WriterTurn(s: Client, m: Ref, conn: Conn) returns (steps: seq<Step>, t: Client)
    requires !s.panicked && s.pendingRequests == 2 && s.conns == [conn] && conn.writer.Idle? && |conn.pending| <= 1
    requires s.queue != [] && s.queue[0] == m && m < |s.heap| && s.heap[m].request.Some?
    requires !s.heap[m].canceled && !s.heap[m].skipResponse
    ensures t == s.(queue := s.queue[1..], count := U32(s.count + 1),
                    conns := [Conn(conn.pending[s.heap[m].request.value.ID() := m], Encoding(m), conn.readerDone)])
    ensures Legal(s, steps) && After(s, steps) == t && steps == [WriterTake(0), WriterCheck(0), WriterFile(0)]
  {
    hide Legal, After, Enabled, Apply;
    var s1, s2;
    s1, s2, t := WriterTurnOnce(s, m, conn);
    steps := ThreeSteps(s, WriterTake(0), WriterCheck(0), WriterFile(0), s1, s2);
  }

  lemma {:induction false} RunsChain(s0: Client, run: seq<Step>, more: seq<Step>)
    requires Legal(s0, run) && Legal(After(s0, run), more)
    ensures Legal(s0, run + more) && After(s0, run + more) == After(After(s0, run), more)
  {
    hide Enabled, Apply;
    if more == [] {
      assert run + more == run;
    } else {
      var front, l := more[..|more| - 1], more[|more| - 1];
      RunsChain(s0, run, front);
      OneMore(s0, run + front, l);
      assert run + more == run + front + [l];
    }
  }

  lemma EncodeTurn(s: Client, conn: Conn, m: Ref)
    requires !s.panicked && s.conns == [conn] && conn.writer == Encoding(m)
    requires m < |s.heap| && s.heap[m].request.Some? && Encodable(s.codec, s.heap[m].request.value)
    ensures Enabled(s, WriterEncode(0)) && Apply(s, WriterEncode(0)) == s.(conns := [conn.(writer := Idle)])
  {
  }

  lemma FirstSent(codec: Codec, p0: Packet, p1: Packet) returns (run: seq<Step>)
    requires Encodable(codec, p0)
    ensures Legal(Start(codec, 2), run)
    ensures After(Start(codec, 2), run) == TwoCalls(codec, p0, p1, [1], [Conn(map[p0.ID() := 0], Idle, false)], 1)
  {
    var s0 := Start(codec, 2);
    var s1 := TwoCalls(codec, p0, p1, [0, 1], [Conn(map[], Idle, false)], 0);
    run := BothQueued(codec, p0, p1);
    hide Legal, After, Start;
    OneMore(s0, run, Connect);
    run := run + [Connect];
    assert After(s0, run) == s1;
    var steps, s2 := WriterTurn(s1, 0, Conn(map[], Idle, false));
    RunsChain(s0, run, steps);
    run := run + steps;
    hide Enabled, Apply;
    EncodeTurn(s2, Conn(map[p0.ID() := 0], Encoding(0), false), 0);
    OneMore(s0, run, WriterEncode(0));
    run := run + [WriterEncode(0)];
    assert [0, 1][1..] == [1];
  }

  /** The reply to `p0` finds the entry of `p1` under their common Seq, and completes it. */
  lemma Misdelivered(codec: Codec, p0: Packet, p1: Packet, answer: Packet, s: Client) returns (s1: Client, t: Client)
    requires p0.ID() == answer.ID()
    requires s == TwoCalls(codec, p0, p1, [], [Conn(map[p0.ID() := 1], Encoding(1), false)], 2)
    ensures Enabled(s, ReaderDeliver(0, answer)) && s1 == Apply(s, ReaderDeliver(0, answer))
    ensures s1.conns == [Conn(map[], Encoding(1), false)]
    ensures Enabled(s1, Complete(1)) && t == Apply(s1, Complete(1))
    ensures t.count == 1 && t.conns == [Conn(map[], Encoding(1), false)] && t.queue == [] && |t.heap| == 2 && t.heap[0].done.Open?
    ensures t.calls == [Call(p0, Sync(0), 0, Waiting(0)), Call(p1, Sync(0), 0, Finished(Reply(Some(answer))))]
  {
    s1 := Apply(s, ReaderDeliver(0, answer));
    assert s1.conns == [Conn(map[], Encoding(1), false)];
    t := Apply(s1, Complete(1));
  }

  /**
   Why requests must not share a Seq: a run in which only `p0` is ever written, the reply to it completes the call
   that asked for `p1`, the call for `p0` is filed nowhere any more, and the counter says 1 with nothing pending.
   */
  lemma SharedSeqMisleads(codec: Codec, p0: Packet, p1: Packet, answer: Packet) returns (run: seq<Step>, s: Client)
    requires Encodable(codec, p0) && p0.ID() == p1.ID() == answer.ID()
    ensures Legal(Start(codec, 2), run) && After(Start(codec, 2), run) == s
    ensures s.calls == [Call(p0, Sync(0), 0, Waiting(0)), Call(p1, Sync(0), 0, Finished(Reply(Some(answer))))]
    ensures s.queue == [] && s.conns == [Conn(map[], Encoding(1), false)] && |s.heap| == 2 && s.heap[0].done.Open?
    ensures s.count == 1 && Total(s.conns) == 0
  {
    var s0 := Start(codec, 2);
    run := FirstSent(codec, p0, p1);
    hide Legal, After, Enabled, Apply;
    var steps, s1 := WriterTurn(After(s0, run), 1, Conn(map[p0.ID() := 0], Idle, false));
    RunsChain(s0, run, steps);
    run := run + steps;
    assert map[p0.ID() := 0][p1.ID() := 1] == map[p0.ID() := 1];
    var s2;
    s2, s := Misdelivered(codec, p0, p1, answer, s1);
    OneMore(s0, run, ReaderDeliver(0, answer));
    run := run + [ReaderDeliver(0, answer)];
    OneMore(s0, run, Complete(1));
    run := run + [Complete(1)];
  }
}
