/**
 How often a call is tried: as often as its timer fires, until no retry is left.
 */
module ClientTries {
  import opened Wrappers
  import opened Encoding
  import opened ClientSteps
  import opened ClientRuns
  import opened ClientOutcomes

  /** How often the timer of call `c` has fired. */
  ghost function Expiries(run: seq<Step>, c: nat): nat {
    if run == [] then 0 else Expiries(run[..|run| - 1], c) + if run[|run| - 1] == Expire(c) then 1 else 0
  }

  /** A call whose timer fired `n` times: only CallTimeout has one, and it fails for good when no try is left. */
  ghost predicate Tried(call: Call, n: nat) {
    && call.tryNum == n
    && match call.mode
       case Sync(retryNum) => n <= retryNum || (n == retryNum + 1 && call.phase == Finished(Failed(TimeOut)))
       case _ => n == 0
  }

  ghost predicate AllTried(s: Client, run: seq<Step>) {
    forall c: nat :: if c < |s.calls| then Tried(s.calls[c], Expiries(run, c)) else Expiries(run, c) == 0
  }

  /** No other error reads as the timer's. */
  ghost predicate OwnTimeOuts(s: Client) {
    && (forall m :: 0 <= m < |s.heap| ==> s.heap[m].error != Some(TimeOut))
    && forall c :: 0 <= c < |s.calls| && s.calls[c].mode.Sync? && s.calls[c].phase == Finished(Failed(TimeOut)) ==>
                     s.calls[c].tryNum == s.calls[c].mode.retryNum + 1
  }

  ghost predicate NoneTimesOut(run: seq<Step>) {
    forall l <- run :: !(l.TeardownOne? && l.err == Some(TimeOut))
  }

  /** One more step is one more try at most. */
  ghost predicate TriedOn(s: Client, l: Step, s': Client) {
    && |s.calls| <= |s'.calls|
    && (l.Expire? ==> l.c < |s.calls|)
    && (forall c: nat :: c < |s.calls| ==> TriedMore(s.calls[c], s'.calls[c], l == Expire(c)))
    && (forall c :: |s.calls| <= c < |s'.calls| ==> Tried(s'.calls[c], 0))
  }

  ghost predicate TriedMore(call: Call, call': Call, expired: bool) {
    forall n: nat :: Tried(call, n) ==> Tried(call', n + if expired then 1 else 0)
  }

  lemma TriedByExpire(s: Client, c: nat)
    requires Enabled(s, Expire(c))
    ensures TriedOn(s, Expire(c), Apply(s, Expire(c)))
  {
  }

  lemma TriedBySend(s: Client, l: Step)
    requires Enabled(s, l) && (l.TrySend? || l.Resend?)
    ensures TriedOn(s, l, Apply(s, l))
  {
  }

  lemma TriedByCaller(s: Client, l: Step)
    requires Enabled(s, l) && (l.Invoke? || l.Acquire? || l.EvictOldest? || l.Complete? || l.Cancel?)
    ensures TriedOn(s, l, Apply(s, l))
  {
  }

  lemma TriedOnce(s: Client, l: Step)
    requires Enabled(s, l)
    ensures TriedOn(s, l, Apply(s, l))
  {
    if l.Expire? {
      TriedByExpire(s, l.c);
    } else if l.TrySend? || l.Resend? {
      TriedBySend(s, l);
    } else if l.Invoke? || l.Acquire? || l.EvictOldest? || l.Complete? || l.Cancel? {
      TriedByCaller(s, l);
    } else {
      CallsStayPut(s, l);
    }
  }

  lemma OwnByConnection(s: Client, l: Step)
    requires Enabled(s, l) && OwnTimeOuts(s) && !(l.TeardownOne? && l.err == Some(TimeOut))
    requires !l.Invoke? && !l.Acquire? && !l.TrySend? && !l.EvictOldest? && !l.Resend? && !l.Complete? && !l.Expire? && !l.Cancel?
    ensures OwnTimeOuts(Apply(s, l))
  {
    CallsStayPut(s, l);
  }

  lemma OwnBySend(s: Client, l: Step)
    requires Enabled(s, l) && OwnTimeOuts(s) && (l.TrySend? || l.Resend?)
    ensures OwnTimeOuts(Apply(s, l))
  {
  }

  lemma OwnByExpire(s: Client, c: nat)
    requires Enabled(s, Expire(c)) && OwnTimeOuts(s) && Tried(s.calls[c], s.calls[c].tryNum)
    ensures OwnTimeOuts(Apply(s, Expire(c)))
  {
  }

  lemma OwnByEvict(s: Client, c: nat)
    requires Enabled(s, EvictOldest(c)) && OwnTimeOuts(s)
    ensures OwnTimeOuts(Apply(s, EvictOldest(c)))
  {
  }

  lemma OwnByComplete(s: Client, c: nat)
    requires Enabled(s, Complete(c)) && OwnTimeOuts(s)
    ensures OwnTimeOuts(Apply(s, Complete(c)))
  {
  }

  lemma OwnByCaller(s: Client, l: Step)
    requires Enabled(s, l) && OwnTimeOuts(s) && (l.Invoke? || l.Acquire? || l.Cancel?)
    ensures OwnTimeOuts(Apply(s, l))
  {
  }

  /**
   Over any run a call has tried again exactly as often as its timer fired, at most its number of retries, and if no
   connection ends with a timeout of its own, it fails with one exactly when the timer of the last try has fired.
   */
  lemma {:induction false} TriesLaw(codec: Codec, pendingRequests: nat, run: seq<Step>)
    requires Legal(Start(codec, pendingRequests), run)
    ensures AllTried(After(Start(codec, pendingRequests), run), run)
    ensures NoneTimesOut(run) ==> OwnTimeOuts(After(Start(codec, pendingRequests), run))
  {
    if run != [] {
      var front, l := run[..|run| - 1], run[|run| - 1];
      TriesLaw(codec, pendingRequests, front);
      var s := After(Start(codec, pendingRequests), front);
      assert front + [l] == run && Enabled(s, l) && After(Start(codec, pendingRequests), run) == Apply(s, l);
      hide Legal, After, Start, Apply, Enabled, AllTried, TriedOn, OwnTimeOuts;
      TriedOnce(s, l);
      TriedAll(s, front, l, Apply(s, l));
      if NoneTimesOut(run) {
        assert l in run && forall x <- front :: x in run;
        OwnOnce(s, front, l);
      }
    }
  }

  lemma TriedAll(s: Client, front: seq<Step>, l: Step, s': Client)
    requires AllTried(s, front) && TriedOn(s, l, s')
    ensures AllTried(s', front + [l])
  {
    hide Tried;
    assert (front + [l])[..|front|] == front;
    forall c: nat
      ensures if c < |s'.calls| then Tried(s'.calls[c], Expiries(front + [l], c)) else Expiries(front + [l], c) == 0
    {
      assert Expiries(front + [l], c) == Expiries(front, c) + if l == Expire(c) then 1 else 0;
      if c < |s.calls| {
        assert TriedMore(s.calls[c], s'.calls[c], l == Expire(c)) && Tried(s.calls[c], Expiries(front, c));
      }
    }
  }

  lemma OwnOnce(s: Client, front: seq<Step>, l: Step)
    requires Enabled(s, l) && OwnTimeOuts(s) && AllTried(s, front) && !(l.TeardownOne? && l.err == Some(TimeOut))
    ensures OwnTimeOuts(Apply(s, l))
  {
    if l.Expire? {
      assert Tried(s.calls[l.c], Expiries(front, l.c));
      OwnByExpire(s, l.c);
    } else if l.TrySend? || l.Resend? {
      OwnBySend(s, l);
    } else if l.EvictOldest? {
      OwnByEvict(s, l.c);
    } else if l.Complete? {
      OwnByComplete(s, l.c);
    } else if l.Invoke? || l.Acquire? || l.Cancel? {
      OwnByCaller(s, l);
    } else {
      OwnByConnection(s, l);
    }
  }
}
