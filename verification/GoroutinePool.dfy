/**
 runtime/gr: pools that let a bounded number of functions run at once.

 A pool is a state machine over its semaphore channel and wait group: every `Execute`, every goroutine it starts
 and `Close` take their steps in any order. The keyed pools are several such machines side by side.
 */
module GoroutinePool {
  import opened Wrappers

  /**
   A call of Execute: before the semaphore send, between it and `wg.Add`, between that and the goroutine's start;
   then the goroutine while the function runs, before it takes its token back, and before `wg.Done`; gone; or
   turned away by the timeout, or by a panic on the closed channel.
   */
  datatype Phase = Offered | Admitted | Counted | Running | Ran | Released | Gone | TimedOut | Crashed

  datatype Task = Task(phase: Phase, runs: nat)

  datatype Closing = NotYet | Waiting | Returned

  /** `timed` is a FixedGoroutinePoolTimeout with a positive Timeout. */
  datatype Pool = Pool(size: nat, timed: bool, tasks: seq<Task>, tokens: nat, closed: bool, wg: nat, closing: Closing)

  datatype Step =
    | Execute
    | Send(t: nat)
    | TimeOut(t: nat)
    | Add(t: nat)
    | Begin(t: nat)
    | Finish(t: nat)
    | Receive(t: nat)
    | Done(t: nat)
    | Close
    | CloseReturns

  function New(size: nat, timed: bool): Pool {
    Pool(size, timed, [], 0, false, 0, NotYet)
  }

  predicate At(s: Pool, t: nat, phase: Phase) {
    t < |s.tasks| && s.tasks[t].phase == phase
  }

  predicate Enabled(s: Pool, l: Step) {
    match l
    case Execute => true
    case Send(t) => At(s, t, Offered) && (s.closed || s.tokens < s.size)
    case TimeOut(t) => At(s, t, Offered) && s.timed
    case Add(t) => At(s, t, Admitted)
    case Begin(t) => At(s, t, Counted)
    case Finish(t) => At(s, t, Running)
    case Receive(t) => At(s, t, Ran) && s.tokens > 0
    case Done(t) => At(s, t, Released) && s.wg > 0
    case Close => s.closing.NotYet?
    case CloseReturns => s.closing.Waiting? && s.wg == 0
  }

  function To(s: Pool, t: nat, phase: Phase): Pool
    requires t < |s.tasks|
  {
    s.(tasks := s.tasks[t := s.tasks[t].(phase := phase)])
  }

  function Apply(s: Pool, l: Step): Pool
    requires Enabled(s, l)
  {
    match l
    case Execute => s.(tasks := s.tasks + [Task(Offered, 0)])
    case Send(t) => if s.closed then To(s, t, Crashed) else To(s, t, Admitted).(tokens := s.tokens + 1)
    case TimeOut(t) => To(s, t, TimedOut)
    case Add(t) => To(s, t, Counted).(wg := s.wg + 1)
    case Begin(t) => To(s, t, Running)
    case Finish(t) => s.(tasks := s.tasks[t := Task(Ran, s.tasks[t].runs + 1)])
    case Receive(t) => To(s, t, Released).(tokens := s.tokens - 1)
    case Done(t) => To(s, t, Gone).(wg := s.wg - 1)
    case Close => s.(closed := true, closing := Waiting)
    case CloseReturns => s.(closing := Returned)
  }

  // ----- runs

  ghost predicate Legal(s: Pool, run: seq<Step>)
    decreases |run|, 0
  {
    run == [] || (Legal(s, run[..|run| - 1]) && Enabled(After(s, run[..|run| - 1]), run[|run| - 1]))
  }

  ghost function After(s: Pool, run: seq<Step>): Pool
    requires Legal(s, run)
    decreases |run|, 1
  {
    if run == [] then s else Apply(After(s, run[..|run| - 1]), run[|run| - 1])
  }

  // ----- counting

  function Count(tasks: seq<Task>, phases: set<Phase>): nat {
    if tasks == [] then 0
    else Count(tasks[..|tasks| - 1], phases) + if tasks[|tasks| - 1].phase in phases then 1 else 0
  }

  lemma {:induction false} CountUpdate(tasks: seq<Task>, t: nat, task: Task, phases: set<Phase>)
    requires t < |tasks|
    ensures Count(tasks[t := task], phases)
            == Count(tasks, phases) - (if tasks[t].phase in phases then 1 else 0) + (if task.phase in phases then 1 else 0)
  {
    var n := |tasks| - 1;
    if t == n {
      assert tasks[t := task][..n] == tasks[..n];
    } else {
      assert tasks[t := task][..n] == tasks[..n][t := task];
      CountUpdate(tasks[..n], t, task, phases);
    }
  }

  lemma {:induction false} CountMore(tasks: seq<Task>, small: set<Phase>, large: set<Phase>)
    requires small <= large
    ensures Count(tasks, small) <= Count(tasks, large)
  {
    if tasks != [] {
      CountMore(tasks[..|tasks| - 1], small, large);
    }
  }

  lemma {:induction false} CountZero(tasks: seq<Task>, phases: set<Phase>)
    ensures Count(tasks, phases) == 0 <==> forall t :: 0 <= t < |tasks| ==> tasks[t].phase !in phases
  {
    if tasks != [] {
      CountZero(tasks[..|tasks| - 1], phases);
      assert forall t :: 0 <= t < |tasks| - 1 ==> tasks[..|tasks| - 1][t] == tasks[t];
    }
  }

  const HOLDING: set<Phase> := {Admitted, Counted, Running, Ran}
  const WAITED: set<Phase> := {Counted, Running, Ran, Released}

  /** The semaphore holds one token per admitted call that has not finished, the wait group counts the added ones. */
  ghost predicate Inv(s: Pool) {
    && s.tokens == Count(s.tasks, HOLDING) <= s.size
    && s.wg == Count(s.tasks, WAITED)
    && (s.closing.NotYet? <==> !s.closed)
    && forall t :: 0 <= t < |s.tasks| ==> TaskOk(s, s.tasks[t])
  }

  ghost predicate TaskOk(s: Pool, task: Task) {
    && task.runs == (if task.phase in {Ran, Released, Gone} then 1 else 0)
    && (task.phase.TimedOut? ==> s.timed)
    && (task.phase.Crashed? ==> s.closed)
  }

  lemma Keeps(s: Pool, l: Step)
    requires Inv(s) && Enabled(s, l)
    ensures Inv(Apply(s, l))
  {
    var s' := Apply(s, l);
    if l.Execute? {
      assert s'.tasks[..|s.tasks|] == s.tasks;
    } else if !l.Close? && !l.CloseReturns? {
      KeepsMove(s, l);
    }
  }

  lemma KeepsMove(s: Pool, l: Step)
    requires Inv(s) && Enabled(s, l) && !l.Execute? && !l.Close? && !l.CloseReturns?
    ensures Inv(Apply(s, l))
  {
    hide Count;
    var s' := Apply(s, l);
    CountUpdate(s.tasks, l.t, s'.tasks[l.t], HOLDING);
    CountUpdate(s.tasks, l.t, s'.tasks[l.t], WAITED);
  }

  lemma NewIsGood(size: nat, timed: bool)
    ensures Inv(New(size, timed))
  {
  }

  /**
   Every run: at most `size` functions run at once, and none at all with size 0; a call whose goroutine is over
   has run its function exactly once; one turned away, which only the timed pool or a closed pool does, never.
   */
  lemma {:induction false} EveryRun(size: nat, timed: bool, run: seq<Step>)
    requires Legal(New(size, timed), run)
    ensures var s := After(New(size, timed), run);
            && Inv(s)
            && Count(s.tasks, {Running}) <= size
            && forall t :: 0 <= t < |s.tasks| ==>
                 && (s.tasks[t].phase in {Gone, Released, Ran} ==> s.tasks[t].runs == 1)
                 && (s.tasks[t].phase in {TimedOut, Crashed, Offered, Admitted} ==> s.tasks[t].runs == 0)
                 && (s.tasks[t].phase.TimedOut? ==> timed)
                 && (size == 0 ==> s.tasks[t].phase in {Offered, TimedOut, Crashed})
  {
    hide Count;
    var s := After(New(size, timed), run);
    NewIsGood(size, timed);
    if run != [] {
      EveryRun(size, timed, run[..|run| - 1]);
      Keeps(After(New(size, timed), run[..|run| - 1]), run[|run| - 1]);
    }
    SameConfig(New(size, timed), run);
    CountMore(s.tasks, {Running}, HOLDING);
  }

  lemma {:induction false} SameConfig(s: Pool, run: seq<Step>)
    requires Legal(s, run)
    ensures After(s, run).size == s.size && After(s, run).timed == s.timed
  {
    if run != [] {
      SameConfig(s, run[..|run| - 1]);
    }
  }

  // ----- what Close promises

  /** Is some call past its semaphore send but not yet counted by the wait group? */
  ghost predicate Slipping(s: Pool) {
    exists t :: At(s, t, Admitted)
  }

  ghost predicate Quiet(s: Pool) {
    s.closed && forall t :: 0 <= t < |s.tasks| ==> s.tasks[t].phase !in HOLDING + WAITED
  }

  lemma QuietStays(s: Pool, l: Step)
    requires Quiet(s) && Enabled(s, l)
    ensures Quiet(Apply(s, l)) && |Apply(s, l).tasks| >= |s.tasks|
    ensures forall t :: 0 <= t < |s.tasks| ==> Apply(s, l).tasks[t].runs == s.tasks[t].runs
  {
  }

  lemma {:induction false} QuietRun(s: Pool, run: seq<Step>)
    requires Quiet(s) && Legal(s, run)
    ensures Quiet(After(s, run)) && |After(s, run).tasks| >= |s.tasks|
    ensures forall t :: 0 <= t < |s.tasks| ==> After(s, run).tasks[t].runs == s.tasks[t].runs
  {
    if run != [] {
      QuietRun(s, run[..|run| - 1]);
      QuietStays(After(s, run[..|run| - 1]), run[|run| - 1]);
    }
  }

  /** Does no function run from here on, whatever happens? */
  ghost predicate Over(s: Pool) {
    forall run :: Legal(s, run) ==> forall t :: 0 <= t < |After(s, run).tasks| ==> !After(s, run).tasks[t].phase.Running?
  }

  /** When Close returns, nothing runs any more, now or later, exactly if no call was slipping past it. */
  lemma CloseGuarantee(s: Pool)
    requires Inv(s) && Enabled(s, CloseReturns)
    ensures Over(Apply(s, CloseReturns)) <==> !Slipping(s)
  {
    var s' := Apply(s, CloseReturns);
    CountZero(s.tasks, WAITED);
    if t :| At(s, t, Admitted) {
      SlipsThrough(s', t);
    } else {
      forall t | 0 <= t < |s'.tasks|
        ensures s'.tasks[t].phase !in HOLDING + WAITED
      {
        assert !At(s, t, Admitted);
      }
      forall run | Legal(s', run)
        ensures forall t :: 0 <= t < |After(s', run).tasks| ==> !After(s', run).tasks[t].phase.Running?
      {
        QuietRun(s', run);
      }
    }
  }

  lemma SlipsThrough(s: Pool, t: nat)
    requires At(s, t, Admitted)
    ensures !Over(s)
  {
    var run := [Add(t), Begin(t)];
    assert run[..1] == [Add(t)] && [Add(t)][..0] == [];
    assert Legal(s, []) && Legal(s, [Add(t)]);
    assert After(s, [Add(t)]) == Apply(s, Add(t));
    assert Legal(s, run) && After(s, run).tasks[t].phase.Running?;
  }

  /** Whenever Close, called now, comes to return, does nothing run any more? */
  ghost predicate CloseHolds(s: Pool)
    requires Enabled(s, Close)
  {
    var c := Apply(s, Close);
    forall run :: Legal(c, run) && Enabled(After(c, run), CloseReturns) ==> Over(Apply(After(c, run), CloseReturns))
  }

  /**
   That is so exactly if no call is between its semaphore send and `wg.Add` at the moment Close is called, as when
   every Execute has returned by then; calls that come later meet a closed channel.
   */
  lemma CloseHoldsIff(s: Pool)
    requires Inv(s) && Enabled(s, Close)
    ensures CloseHolds(s) <==> !Slipping(s)
  {
    var c := Apply(s, Close);
    Keeps(s, Close);
    hide Over, Inv;
    if t :| At(s, t, Admitted) {
      assert Legal(c, []) && After(c, []) == c && At(c, t, Admitted);
      var run := Drains(c, [], t);
      CloseGuarantee(After(c, run));
    } else {
      forall run | Legal(c, run) && Enabled(After(c, run), CloseReturns)
        ensures Over(Apply(After(c, run), CloseReturns))
      {
        assert forall t :: At(c, t, Admitted) ==> At(s, t, Admitted);
        NoneSlips(c, run);
        CloseGuarantee(After(c, run));
      }
    }
  }

  lemma {:induction false} NoneSlips(c: Pool, run: seq<Step>)
    requires Inv(c) && c.closed && !Slipping(c) && Legal(c, run)
    ensures Inv(After(c, run)) && After(c, run).closed && !Slipping(After(c, run))
  {
    if run != [] {
      var s, l := After(c, run[..|run| - 1]), run[|run| - 1];
      NoneSlips(c, run[..|run| - 1]);
      Keeps(s, l);
      hide Inv;
      assert forall t :: At(Apply(s, l), t, Admitted) ==> At(s, t, Admitted);
    }
  }

  /** The steps a counted call still has before it. */
  function Ahead(phase: Phase): nat {
    match phase case Counted => 4 case Running => 3 case Ran => 2 case Released => 1 case _ => 0
  }

  function AllAhead(tasks: seq<Task>): nat {
    if tasks == [] then 0 else AllAhead(tasks[..|tasks| - 1]) + Ahead(tasks[|tasks| - 1].phase)
  }

  lemma {:induction false} AheadUpdate(tasks: seq<Task>, t: nat, task: Task)
    requires t < |tasks|
    ensures AllAhead(tasks[t := task]) == AllAhead(tasks) - Ahead(tasks[t].phase) + Ahead(task.phase)
  {
    var n := |tasks| - 1;
    if t == n {
      assert tasks[t := task][..n] == tasks[..n];
    } else {
      assert tasks[t := task][..n] == tasks[..n][t := task];
      AheadUpdate(tasks[..n], t, task);
    }
  }

  /** The next step of a counted call, which nothing can block. */
  lemma NextOf(s: Pool, t: nat) returns (l: Step)
    requires Inv(s) && t < |s.tasks| && s.tasks[t].phase in WAITED
    ensures Enabled(s, l) && l in {Begin(t), Finish(t), Receive(t), Done(t)} && AllAhead(Apply(s, l).tasks) < AllAhead(s.tasks)
    ensures forall u :: u != t && At(s, u, Admitted) ==> At(Apply(s, l), u, Admitted)
    ensures Apply(s, l).closing == s.closing
  {
    match s.tasks[t].phase {
      case Counted => l := Begin(t);
      case Running => l := Finish(t);
      case Ran => l := Receive(t); TokenIsThere(s, t);
      case Released => l := Done(t); CountIsThere(s, t);
    }
    hide Inv;
    var after := Apply(s, l).tasks[t];
    assert Apply(s, l).tasks == s.tasks[t := after];
    AheadUpdate(s.tasks, t, after);
  }

  /** While a call is slipping past it, Close can come to return: the counted calls can all finish. */
  lemma {:induction false} Drains(c: Pool, run: seq<Step>, t: nat) returns (run': seq<Step>)
    requires Legal(c, run) && Inv(After(c, run)) && After(c, run).closing.Waiting? && At(After(c, run), t, Admitted)
    ensures Legal(c, run') && Inv(After(c, run')) && Enabled(After(c, run'), CloseReturns) && At(After(c, run'), t, Admitted)
    decreases AllAhead(After(c, run).tasks)
  {
    hide Inv, Legal, After, Enabled, Apply, AllAhead;
    var s := After(c, run);
    if u :| 0 <= u < |s.tasks| && s.tasks[u].phase in WAITED {
      var l := NextOf(s, u);
      Keeps(s, l);
      OneMore(c, run, l);
      run' := Drains(c, run + [l], t);
    } else {
      run' := run;
      MayReturn(s);
    }
  }

  lemma MayReturn(s: Pool)
    requires Inv(s) && s.closing.Waiting? && forall u :: 0 <= u < |s.tasks| ==> s.tasks[u].phase !in WAITED
    ensures Enabled(s, CloseReturns)
  {
    CountZero(s.tasks, WAITED);
  }

  /** It happens: one call, one token, and Close between the send and `wg.Add`; the function runs after Close has returned. */
  lemma CloseMisses() returns (run: seq<Step>)
    ensures Legal(New(1, false), run)
    ensures After(New(1, false), run).closing.Returned? && At(After(New(1, false), run), 0, Running)
  {
    var s0 := New(1, false);
    var s2 := Apply(Apply(s0, Execute), Send(0));
    var s4 := Apply(Apply(s2, Close), CloseReturns);
    assert Legal(s0, []) && After(s0, []) == s0;
    hide Legal, After;
    OneMore(s0, [], Execute);
    OneMore(s0, [] + [Execute], Send(0));
    run := [] + [Execute] + [Send(0)];
    OneMore(s0, run, Close);
    OneMore(s0, run + [Close], CloseReturns);
    run := run + [Close] + [CloseReturns];
    OneMore(s0, run, Add(0));
    OneMore(s0, run + [Add(0)], Begin(0));
    run := run + [Add(0)] + [Begin(0)];
  }

  lemma OneMore(s0: Pool, run: seq<Step>, l: Step)
    requires Legal(s0, run) && Enabled(After(s0, run), l)
    ensures Legal(s0, run + [l]) && After(s0, run + [l]) == Apply(After(s0, run), l)
  {
    assert (run + [l])[..|run|] == run;
  }

  // ----- a pool in its own form

  /**
   FixedGoroutinePool and FixedGoroutinePoolTimeout: each method is what one goroutine does to the semaphore channel
   or the wait group, and is the machine's step.
   */
  class FixedGoroutinePool {
    const Size: nat
    var semaphoreChan: nat
    var closed: bool
    var wg: nat
    ghost var model: Pool

    ghost predicate Valid()
      reads this
    {
      model.size == Size && model.tokens == semaphoreChan && model.closed == closed && model.wg == wg && Inv(model)
    }

    constructor (size: nat, ghost timed: bool)
      ensures Valid() && model == New(size, timed)
    {
      Size, semaphoreChan, closed, wg := size, 0, false, 0;
      model := New(size, timed);
      new;
      NewIsGood(size, timed);
    }

    ghost method Offer() returns (t: nat)
      requires Valid()
      modifies `model
      ensures Valid() && model == Apply(old(model), Execute) && t == |old(model.tasks)|
    {
      t := |model.tasks|;
      Keeps(model, Execute);
      model := Apply(model, Execute);
    }

    /** `f.semaphoreChan <- true`, once it does not block: it panics if the channel is closed. */
    method Acquire(ghost t: nat) returns (admitted: bool)
      requires Valid() && At(model, t, Offered) && (closed || semaphoreChan < Size)
      modifies this
      ensures Valid() && Enabled(old(model), Send(t)) && model == Apply(old(model), Send(t))
      ensures admitted == !old(closed) && semaphoreChan == old(semaphoreChan) + (if admitted then 1 else 0) <= Size
      ensures At(model, t, if admitted then Admitted else Crashed) && closed == old(closed) && wg == old(wg)
    {
      Keeps(model, Send(t));
      admitted := !closed;
      if admitted {
        semaphoreChan := semaphoreChan + 1;
      }
      model := Apply(model, Send(t));
    }

    /** The timer of the timeout pool came first: Execute returns its error. */
    ghost method GiveUp(t: nat)
      requires Valid() && At(model, t, Offered) && model.timed
      modifies `model
      ensures Valid() && Enabled(old(model), TimeOut(t)) && model == Apply(old(model), TimeOut(t)) && At(model, t, TimedOut)
    {
      Keeps(model, TimeOut(t));
      model := Apply(model, TimeOut(t));
    }

    /** `f.wg.Add(1)`. */
    method WgAdd(ghost t: nat)
      requires Valid() && At(model, t, Admitted)
      modifies this
      ensures Valid() && Enabled(old(model), Add(t)) && model == Apply(old(model), Add(t))
      ensures wg == old(wg) + 1 && semaphoreChan == old(semaphoreChan) && closed == old(closed) && At(model, t, Counted)
    {
      Keeps(model, Add(t));
      wg := wg + 1;
      model := Apply(model, Add(t));
    }

    /** The goroutine's function, and then its deferred receive: its token is still in the channel. */
    method RunAndRelease(ghost t: nat)
      requires Valid() && At(model, t, Counted)
      modifies this
      ensures Valid() && At(model, t, Released) && model.tasks[t].runs == 1
      ensures semaphoreChan == old(semaphoreChan) - 1 && wg == old(wg) && closed == old(closed)
    {
      Keeps(model, Begin(t));
      model := Apply(model, Begin(t));
      Keeps(model, Finish(t));
      model := Apply(model, Finish(t));
      TokenIsThere(model, t);
      Keeps(model, Receive(t));
      semaphoreChan := semaphoreChan - 1;
      model := Apply(model, Receive(t));
      assert TaskOk(model, model.tasks[t]);
    }

    /** `f.wg.Done()`: its count is still there. */
    method WgDone(ghost t: nat)
      requires Valid() && At(model, t, Released)
      modifies this
      ensures Valid() && Enabled(old(model), Done(t)) && model == Apply(old(model), Done(t))
      ensures wg == old(wg) - 1 && semaphoreChan == old(semaphoreChan) && closed == old(closed) && At(model, t, Gone)
    {
      CountIsThere(model, t);
      Keeps(model, Done(t));
      wg := wg - 1;
      model := Apply(model, Done(t));
    }

    /** The first half of `Close`. */
    method CloseChannel()
      requires Valid() && Enabled(model, Close)
      modifies this
      ensures Valid() && model == Apply(old(model), Close) && closed
      ensures semaphoreChan == old(semaphoreChan) && wg == old(wg)
    {
      Keeps(model, Close);
      closed := true;
      model := Apply(model, Close);
    }
  }

  lemma TokenIsThere(s: Pool, t: nat)
    requires Inv(s) && At(s, t, Ran)
    ensures Enabled(s, Receive(t))
  {
    CountZero(s.tasks, HOLDING);
  }

  lemma CountIsThere(s: Pool, t: nat)
    requires Inv(s) && At(s, t, Released)
    ensures Enabled(s, Done(t))
  {
    CountZero(s.tasks, WAITED);
  }

  // ----- the keyed pools

  datatype StartError = InvalidDefaultSize | NegativeSize

  /** One more call offered to the pool. */
  ghost function WithOffer(s: Pool): Pool {
    s.(tasks := s.tasks + [Task(Offered, 0)])
  }

  class GoRoutinePoolWithConfig {
    const DefaultSize: int
    const ReservedConfig: map<string, int>
    var reservedPools: map<string, Pool>
    var defaultPool: Option<Pool>

    constructor (defaultSize: int, reserved: map<string, int>)
      ensures DefaultSize == defaultSize && ReservedConfig == reserved && reservedPools == map[] && defaultPool == None
    {
      DefaultSize, ReservedConfig, reservedPools, defaultPool := defaultSize, reserved, map[], None;
    }

    ghost predicate Valid()
      reads this
    {
      && defaultPool.Some? && Inv(defaultPool.value) && defaultPool.value.size == DefaultSize
      && reservedPools.Keys == ReservedConfig.Keys
      && forall k :: k in reservedPools ==> Inv(reservedPools[k]) && reservedPools[k].size == ReservedConfig[k]
    }

    /** Making a channel of negative size panics, so the first negative size met ends the start. */
    method Start() returns (err: Option<StartError>)
      modifies this
      ensures err == Some(NegativeSize) <==> exists k :: k in ReservedConfig && ReservedConfig[k] < 0
      ensures err == Some(InvalidDefaultSize) <==> (forall k :: k in ReservedConfig ==> ReservedConfig[k] >= 0) && DefaultSize < 1
      ensures err.None? ==>
                && reservedPools.Keys == ReservedConfig.Keys && DefaultSize > 0 && defaultPool == Some(New(DefaultSize, false))
                && (forall k :: k in ReservedConfig ==> ReservedConfig[k] >= 0 && reservedPools[k] == New(ReservedConfig[k], false))
                && Valid()
    {
      reservedPools := map[];
      var todo := ReservedConfig.Keys;
      while todo != {}
        invariant todo <= ReservedConfig.Keys && reservedPools.Keys == ReservedConfig.Keys - todo
        invariant forall k :: k in reservedPools ==> ReservedConfig[k] >= 0 && reservedPools[k] == New(ReservedConfig[k], false)
      {
        var k :| k in todo;
        todo := todo - {k};
        if ReservedConfig[k] < 0 {
          return Some(NegativeSize);
        }
        reservedPools := reservedPools[k := New(ReservedConfig[k], false)];
      }
      if DefaultSize < 1 {
        return Some(InvalidDefaultSize);
      }
      defaultPool := Some(New(DefaultSize, false));
      return None;
    }

    /** A call goes to the pool reserved for its key, else to the default pool; no other pool is touched. */
    method ExecuteKey(key: string)
      requires defaultPool.Some?
      modifies this
      ensures key in old(reservedPools) ==>
                && defaultPool == old(defaultPool)
                && reservedPools == old(reservedPools)[key := WithOffer(old(reservedPools)[key])]
      ensures key !in old(reservedPools) ==>
                reservedPools == old(reservedPools) && defaultPool == Some(WithOffer(old(defaultPool).value))
      ensures old(Valid()) ==> Valid()
    {
      if Valid() {
        Keeps(if key in reservedPools then reservedPools[key] else defaultPool.value, Execute);
      }
      if key in reservedPools {
        reservedPools := reservedPools[key := Apply(reservedPools[key], Execute)];
      } else {
        defaultPool := Some(Apply(defaultPool.value, Execute));
      }
    }

    /** Any further step of any of the pools. */
    method Advance(key: Option<string>, l: Step)
      requires Valid() && (key.Some? ==> key.value in reservedPools)
      requires Enabled(if key.Some? then reservedPools[key.value] else defaultPool.value, l)
      modifies this
      ensures Valid()
      ensures key.Some? ==>
                && defaultPool == old(defaultPool)
                && reservedPools == old(reservedPools)[key.value := Apply(old(reservedPools)[key.value], l)]
      ensures key.None? ==> reservedPools == old(reservedPools) && defaultPool == Some(Apply(old(defaultPool).value, l))
    {
      hide Inv;
      if key.Some? {
        Keeps(reservedPools[key.value], l);
        reservedPools := reservedPools[key.value := Apply(reservedPools[key.value], l)];
      } else {
        Keeps(defaultPool.value, l);
        defaultPool := Some(Apply(defaultPool.value, l));
      }
    }

    ghost function Reserved(keys: seq<string>): int
      requires forall k :: k in keys ==> k in ReservedConfig
    {
      if keys == [] then 0 else Reserved(keys[..|keys| - 1]) + ReservedConfig[keys[|keys| - 1]]
    }

    ghost function RunningAt(keys: seq<string>): nat
      reads this
      requires Valid() && forall k :: k in keys ==> k in ReservedConfig
    {
      if keys == [] then Count(defaultPool.value.tasks, {Running})
      else RunningAt(keys[..|keys| - 1]) + Count(reservedPools[keys[|keys| - 1]].tasks, {Running})
    }

    /** With `keys` listing the reserved keys, all pools together run at most the default size and the reserved sizes. */
    lemma {:induction false} AllTogether(keys: seq<string>)
      requires Valid() && forall k :: k in keys ==> k in ReservedConfig
      ensures RunningAt(keys) <= DefaultSize + Reserved(keys)
    {
      if keys == [] {
        CountMore(defaultPool.value.tasks, {Running}, HOLDING);
      } else {
        AllTogether(keys[..|keys| - 1]);
        CountMore(reservedPools[keys[|keys| - 1]].tasks, {Running}, HOLDING);
      }
    }
  }
}
