/** Runs of the server machine, whatever requests arrive. */
module ServerRuns {
  import opened Wrappers
  import opened Bytes
  import opened Encoding
  import opened ServerSteps
  import opened ServerSafety

  ghost predicate Legal(s: Server, run: seq<SStep>)
    decreases |run|, 0
  {
    run == [] || (Legal(s, run[..|run| - 1]) && Enabled(After(s, run[..|run| - 1]), run[|run| - 1]))
  }

  ghost function After(s: Server, run: seq<SStep>): Server
    requires Legal(s, run)
    decreases |run|, 1
  {
    if run == [] then s else Apply(After(s, run[..|run| - 1]), run[|run| - 1])
  }

  /** What one step adds to what has been received and written on connection `k`. */
  function MoreReceived(l: SStep, k: nat): seq<Packet> {
    match l case Receive(x, p, _) => if x == k then [p] else [] case _ => []
  }

  function MoreWritten(s: Server, l: SStep, k: nat): seq<Packet>
    requires Enabled(s, l)
  {
    match l
    case SendResponse(x) => if x == k && SEmits(s, k).Some? then [SEmits(s, k).value] else []
    case _ => []
  }

  /** The requests that have been decoded on connection `k`, oldest first. */
  function Received(run: seq<SStep>, k: nat): seq<Packet> {
    if run == [] then []
    else Received(run[..|run| - 1], k) + MoreReceived(run[|run| - 1], k)
  }

  /** The responses that have been written to connection `k`, oldest first. */
  ghost function Written(s: Server, run: seq<SStep>, k: nat): seq<Packet>
    requires Legal(s, run)
  {
    if run == [] then []
    else
      var front := run[..|run| - 1];
      Written(s, front, k) + MoreWritten(After(s, front), run[|run| - 1], k)
  }

  function Indices(answers: seq<Reply>): (r: seq<nat>)
    ensures |r| == |answers|
    ensures forall j :: 0 <= j < |r| ==> r[j] == answers[j].i
  {
    seq(|answers|, j requires 0 <= j < |answers| => answers[j].i)
  }

  function Responses(answers: seq<Reply>): (r: seq<Packet>)
    ensures |r| == |answers|
    ensures forall j :: 0 <= j < |r| ==> r[j] == answers[j].rsp
  {
    seq(|answers|, j requires 0 <= j < |answers| => answers[j].rsp)
  }

  /** The history of a run, which agrees with what the run itself shows on every connection. */
  ghost predicate Told(s: Server, run: seq<SStep>, h: Hist)
    requires Legal(s, run)
  {
    forall k :: 0 <= k < |h.decoded| && k < |h.answered| ==>
      h.decoded[k] == Received(run, k) && Responses(h.answered[k]) == Written(s, run, k)
  }

  lemma StartIsGood(codec: Codec, handlers: set<uint32>, concurrency: nat, pendingResponses: nat)
    ensures Inv(Start(codec, handlers, concurrency, pendingResponses), Hist([], map[], [], [], [], {}))
  {
  }

  /** Before a connection is accepted nothing happens on it. */
  lemma {:induction false} NothingYet(s: Server, run: seq<SStep>, k: nat)
    requires Legal(s, run) && k >= |After(s, run).conns|
    ensures Received(run, k) == [] && Written(s, run, k) == []
  {
    if run != [] {
      var front := run[..|run| - 1];
      assert |After(s, front).conns| <= |After(s, run).conns| by {
        ConnsGrow(After(s, front), run[|run| - 1]);
      }
      NothingYet(s, front, k);
    }
  }

  lemma ConnsGrow(s: Server, l: SStep)
    requires Enabled(s, l)
    ensures |Apply(s, l).conns| == |s.conns| + if l.Accept? then 1 else 0
  {
  }

  /** One step of the history shows the same. */
  lemma ToldOnce(s: Server, h: Hist, l: SStep, h': Hist, k: nat)
    requires Enabled(s, l) && |h.decoded| == |h.answered| == |h.inHand| == |s.conns|
    requires l.Accept? ==> h'.decoded == h.decoded + [[]] && h'.answered == h.answered + [[]]
    requires l.Receive? ==> h'.decoded == h.decoded[l.k := h.decoded[l.k] + [l.p]] && h'.answered == h.answered
    requires !l.Accept? && !l.Receive? ==> h'.decoded == h.decoded
    requires !l.Accept? && !l.SendResponse? ==> h'.answered == h.answered
    requires l.SendResponse? && SEmits(s, l.k).None? ==> h'.answered == h.answered
    requires l.SendResponse? && SEmits(s, l.k).Some? ==>
               h'.answered == h.answered[l.k := h.answered[l.k] + [Reply(h.inHand[l.k], SEmits(s, l.k).value)]]
    requires k < |h.decoded|
    ensures |h'.decoded| == |h'.answered| && k < |h'.decoded|
    ensures h'.decoded[k] == h.decoded[k] + MoreReceived(l, k)
    ensures Responses(h'.answered[k]) == Responses(h.answered[k]) + MoreWritten(s, l, k)
  {
    if l.SendResponse? && l.k == k && SEmits(s, k).Some? {
      var reply := Reply(h.inHand[k], SEmits(s, k).value);
      assert Responses(h.answered[k] + [reply]) == Responses(h.answered[k]) + [reply.rsp];
    }
  }

  lemma {:induction false} EveryRun(s0: Server, run: seq<SStep>) returns (h: Hist)
    requires s0 == Start(s0.codec, s0.handlers, s0.concurrency, s0.pendingResponses)
    requires Legal(s0, run)
    ensures Inv(After(s0, run), h) && Told(s0, run, h)
  {
    if run == [] {
      h := Hist([], map[], [], [], [], {});
      StartIsGood(s0.codec, s0.handlers, s0.concurrency, s0.pendingResponses);
    } else {
      var front := run[..|run| - 1];
      var before := EveryRun(s0, front);
      h := Keeps(After(s0, front), before, run[|run| - 1]);
      forall k | 0 <= k < |h.decoded| && k < |h.answered|
        ensures h.decoded[k] == Received(run, k) && Responses(h.answered[k]) == Written(s0, run, k)
      {
        if k < |before.decoded| {
          ToldOnce(After(s0, front), before, run[|run| - 1], h, k);
        } else {
          NothingYet(s0, front, k);
        }
      }
    }
  }

  /** Is `answers` a list of dispatch results of different members of `requests`, member `which[j]` for the j-th? */
  ghost predicate AnswersTo(s: Server, requests: seq<Packet>, answers: seq<Packet>, which: seq<nat>) {
    && |which| == |answers|
    && (forall j :: 0 <= j < |which| ==> which[j] < |requests| && Dispatched(s, requests[which[j]], answers[j]))
    && (forall j, j' :: 0 <= j < j' < |which| ==> which[j] != which[j'])
  }

  /** Handlers running now. */
  function Handling(workers: seq<Worker>): nat {
    if workers == [] then 0
    else Handling(workers[..|workers| - 1]) + if workers[|workers| - 1].stage.Running? then 1 else 0
  }

  lemma {:induction false} HandlingIsInFlight(workers: seq<Worker>)
    ensures Handling(workers) <= InFlight(workers)
  {
    if workers != [] {
      HandlingIsInFlight(workers[..|workers| - 1]);
    }
  }

  /**
   In every run: at most `concurrency` handlers are in flight, the semaphore holds a token for each, no message
   panics a worker, and every connection's responses answer different requests of that same connection.
   */
  lemma EveryRunIsSafe(s0: Server, run: seq<SStep>, k: nat) returns (which: seq<nat>)
    requires s0 == Start(s0.codec, s0.handlers, s0.concurrency, s0.pendingResponses)
    requires Legal(s0, run)
    ensures var s := After(s0, run);
            && !s.panicked && Handling(s.workers) <= s.tokens == InFlight(s.workers) <= s.concurrency
            && (k < |s.conns| ==> |s.conns[k].responses| <= s.pendingResponses)
            && AnswersTo(s, Received(run, k), Written(s0, run, k), which)
  {
    var h := EveryRun(s0, run);
    var s := After(s0, run);
    HandlingIsInFlight(s.workers);
    if k < |s.conns| {
      assert ConnOk(s, h, k) && AnswersOk(h, k);
      which := Indices(h.answered[k]);
      assert forall j :: 0 <= j < |which| ==> h.answered[k][j].rsp == Written(s0, run, k)[j];
    } else {
      NothingYet(s0, run, k);
      which := [];
    }
  }
}
