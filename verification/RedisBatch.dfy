/**
 databases/redisdb/pool.go: batched commands with retry rounds.

 Each round hands its requests to a pool of at most ten workers. An accepted request completes at any later time,
 in any order, with any outcome of `Do`; one the pool does not accept in time fails at once.
 */
module RedisBatch {
  import opened Wrappers

  datatype BatchReq = BatchReq(Key: string, Args: Option<string>)

  datatype BatchReply = BatchReply(Req: BatchReq, Reply: Option<string>, Err: Option<string>)

  function Reqs(replies: seq<BatchReply>): (r: seq<BatchReq>)
    ensures |r| == |replies|
    ensures forall i :: 0 <= i < |r| ==> r[i] == replies[i].Req
  {
    seq(|replies|, i requires 0 <= i < |replies| => replies[i].Req)
  }

  predicate Succeeded(replies: seq<BatchReply>) {
    forall r <- replies :: r.Err.None?
  }

  predicate Failed(replies: seq<BatchReply>) {
    forall r <- replies :: r.Err.Some?
  }

  lemma ReqsAppend(a: seq<BatchReply>, b: seq<BatchReply>)
    ensures Reqs(a + b) == Reqs(a) + Reqs(b)
    ensures multiset(Reqs(a + b)) == multiset(Reqs(a)) + multiset(Reqs(b))
  {
    assert Reqs(a + b) == Reqs(a) + Reqs(b);
  }

  /** What became of one request: the command was sent for it and came back so, or the pool had no room in time. */
  datatype Answer = Done(command: string, req: BatchReq, reply: Option<string>, err: Option<string>) | TimedOut(req: BatchReq)

  const TIMEOUT: string := "insert into gouroutine pool timeout"

  function ReplyTo(a: Answer): BatchReply {
    match a
    case Done(_, req, reply, err) => BatchReply(req, reply, err)
    case TimedOut(req) => BatchReply(req, None, Some(TIMEOUT))
  }

  /** What each request is told: the reply and the error `Do` returned, or that the pool had no room. */
  function RepliesTo(answers: seq<Answer>): (r: seq<BatchReply>)
    ensures |r| == |answers| && forall i :: 0 <= i < |r| ==> r[i] == ReplyTo(answers[i])
  {
    seq(|answers|, i requires 0 <= i < |answers| => ReplyTo(answers[i]))
  }

  ghost predicate AllFor(answers: seq<Answer>, command: string) {
    forall a <- answers :: a.Done? ==> a.command == command
  }

  /** The client behind the pool, and what happened to the requests it was given. */
  class RedisPoolClient {
    var log: seq<Answer>

    constructor ()
      ensures log == []
    {
      log := [];
    }

    /** A server answers, or fails, in any way. */
    method Do(command: string, req: BatchReq) returns (reply: Option<string>, err: Option<string>)
      modifies this
      ensures log == old(log) + [Done(command, req, reply, err)]
    {
      reply, err := *, *;
      log := log + [Done(command, req, reply, err)];
    }

    method TimeOut(req: BatchReq) returns (err: string)
      modifies this
      ensures log == old(log) + [TimedOut(req)] && err == TIMEOUT
    {
      err := TIMEOUT;
      log := log + [TimedOut(req)];
    }
  }

  lemma OneMore(answers: seq<Answer>, a: Answer, command: string)
    requires AllFor(answers, command) && (a.Done? ==> a.command == command)
    ensures RepliesTo(answers + [a]) == RepliesTo(answers) + [ReplyTo(a)] && AllFor(answers + [a], command)
    ensures multiset(Reqs(RepliesTo(answers + [a]))) == multiset(Reqs(RepliesTo(answers))) + multiset{a.req}
  {
    assert RepliesTo(answers + [a]) == RepliesTo(answers) + [ReplyTo(a)];
    ReqsAppend(RepliesTo(answers), [ReplyTo(a)]);
    assert Reqs([ReplyTo(a)]) == [a.req];
  }

  /** The channel the workers of a round answer on, and the requests still in their hands. */
  class Round {
    const client: RedisPoolClient
    const command: string
    const capacity: nat
    const poolSize: nat
    var c: seq<BatchReply>
    var inFlight: seq<BatchReq>
    ghost const start: seq<Answer>
    ghost var answers: seq<Answer>
    ghost var taken: multiset<BatchReq>

    /**
     Every request taken on is in flight or answered, exactly once; what is on the channel is what the client answered in
     this round, and an answer always fits.
     */
    ghost predicate Valid()
      reads this, client
    {
      && taken == multiset(inFlight) + multiset(Reqs(c))
      && |inFlight| <= poolSize
      && |taken| <= capacity
      && client.log == start + answers && c == RepliesTo(answers) && AllFor(answers, command)
    }

    constructor (client: RedisPoolClient, command: string, n: nat)
      ensures Valid() && capacity == n && poolSize == (if n >= 100 then 10 else 5)
      ensures this.client == client && this.command == command && start == client.log
      ensures c == [] && inFlight == [] && taken == multiset{} && answers == []
    {
      this.client, this.command, start, answers := client, command, client.log, [];
      capacity, poolSize := n, if n >= 100 then 10 else 5;
      c, inFlight, taken := [], [], multiset{};
    }

    /** `c <- reply` on the buffered channel, which has room. */
    method Send(reply: BatchReply)
      requires |c| < capacity
      modifies `c
      ensures c == old(c) + [reply]
    {
      c := c + [reply];
    }

    /** Some worker's `Do` returns, and its request is answered with just that. */
    method Complete()
      requires Valid() && inFlight != []
      modifies `c, `inFlight, `answers, client
      ensures Valid() && |inFlight| == |old(inFlight)| - 1 && |answers| == |old(answers)| + 1
    {
      var i: nat :| i < |inFlight|;
      var tmp := inFlight[i];
      hide Reqs, RepliesTo, AllFor;
      assert inFlight == inFlight[..i] + [tmp] + inFlight[i + 1..];
      assert |taken| == |inFlight| + |Reqs(c)|;
      var ret, err := client.Do(command, tmp);
      var r := BatchReply(tmp, ret, err);
      OneMore(answers, Done(command, tmp, ret, err), command);
      answers := answers + [Done(command, tmp, ret, err)];
      Send(r);
      inFlight := inFlight[..i] + inFlight[i + 1..];
    }

    /** `Execute`: workers may finish meanwhile; the pool takes the request, or times out. */
    method Submit(req: BatchReq)
      requires Valid() && |taken| < capacity
      modifies this, client
      ensures Valid() && taken == old(taken) + multiset{req}
    {
      CompleteSome();
      var accepted: bool := *;
      if accepted && |inFlight| < poolSize {
        inFlight, taken := inFlight + [req], taken + multiset{req};
      } else {
        Refuse(req);
      }
    }

    method CompleteSome()
      requires Valid()
      modifies `c, `inFlight, `answers, client
      ensures Valid()
    {
      var finishing: nat := *;
      while finishing > 0 && inFlight != []
        invariant Valid()
      {
        Complete();
        finishing := finishing - 1;
      }
    }

    /** The pool timed out: the failure is answered at once. */
    method Refuse(req: BatchReq)
      requires Valid() && |taken| < capacity
      modifies `c, `taken, `answers, client
      ensures Valid() && taken == old(taken) + multiset{req} && answers == old(answers) + [TimedOut(req)]
    {
      hide RepliesTo, AllFor;
      assert |taken| == |inFlight| + |Reqs(c)|;
      var errTimeout := client.TimeOut(req);
      var r := BatchReply(req, None, Some(errTimeout));
      OneMore(answers, TimedOut(req), command);
      answers := answers + [TimedOut(req)];
      Send(r);
      taken := taken + multiset{req};
    }

    /** `Close` of the pool waits for every worker. */
    method Wait()
      requires Valid()
      modifies `c, `inFlight, `answers, client
      ensures Valid() && inFlight == [] && taken == multiset(Reqs(c))
    {
      while inFlight != []
        invariant Valid()
        decreases |inFlight|
      {
        Complete();
      }
    }
  }

  /** The failures, and the successes, of some answers. */
  ghost predicate Parts(c: seq<BatchReply>, reply: seq<BatchReply>, errReply: seq<BatchReply>) {
    && Succeeded(reply) && Failed(errReply) && multiset(reply) + multiset(errReply) == multiset(c)
    && multiset(Reqs(reply)) + multiset(Reqs(errReply)) == multiset(Reqs(c))
  }

  /** The same requests, if the answers are the same. */
  lemma PartsMore(a: seq<BatchReply>, b: seq<BatchReply>, c: seq<BatchReply>, v: BatchReply)
    requires multiset(a) + multiset(b) == multiset(c) && multiset(Reqs(a)) + multiset(Reqs(b)) == multiset(Reqs(c))
    ensures multiset(a + [v]) + multiset(b) == multiset(c + [v])
    ensures multiset(Reqs(a + [v])) + multiset(Reqs(b)) == multiset(Reqs(c + [v]))
  {
    hide Reqs;
    ReqsAppend(a, [v]);
    ReqsAppend(c, [v]);
  }

  lemma PartsOn(c: seq<BatchReply>, i: nat, reply: seq<BatchReply>, errReply: seq<BatchReply>)
    requires i < |c| && Parts(c[..i], reply, errReply)
    ensures if c[i].Err.Some? then Parts(c[..i + 1], reply, errReply + [c[i]]) else Parts(c[..i + 1], reply + [c[i]], errReply)
    ensures Reqs(errReply + [c[i]]) == Reqs(errReply) + [c[i].Req]
  {
    assert Reqs(errReply + [c[i]]) == Reqs(errReply) + [c[i].Req];
    hide Reqs;
    assert c[..i + 1] == c[..i] + [c[i]];
    if c[i].Err.Some? {
      PartsMore(errReply, reply, c[..i], c[i]);
    } else {
      PartsMore(reply, errReply, c[..i], c[i]);
    }
  }

  /** The loop over the closed channel parts the failures from the successes. */
  method Drain(c: seq<BatchReply>) returns (reply: seq<BatchReply>, errReply: seq<BatchReply>, rest: seq<BatchReq>)
    ensures Succeeded(reply) && Failed(errReply) && rest == Reqs(errReply)
    ensures multiset(reply) + multiset(errReply) == multiset(c)
    ensures multiset(Reqs(reply)) + multiset(rest) == multiset(Reqs(c))
  {
    reply, errReply, rest := [], [], [];
    assert c[..0] == [];
    for i := 0 to |c|
      invariant Parts(c[..i], reply, errReply) && rest == Reqs(errReply)
    {
      hide Parts, Reqs;
      var v := c[i];
      PartsOn(c, i, reply, errReply);
      if v.Err.Some? {
        rest, errReply := rest + [v.Req], errReply + [v];
      } else {
        reply := reply + [v];
      }
    }
    assert c[..|c|] == c;
  }

  /**
   One round: each request comes back once with what the client answered to it, as a success, or as a failure that is also
   left for the next round.
   */
  method BatchDoOnce(client: RedisPoolClient, command: string, req: seq<BatchReq>)
    returns (reply: seq<BatchReply>, errReply: seq<BatchReply>, rest: seq<BatchReq>, ghost answers: seq<Answer>)
    modifies client
    ensures client.log == old(client.log) + answers && AllFor(answers, command)
    ensures multiset(reply) + multiset(errReply) == multiset(RepliesTo(answers))
    ensures Succeeded(reply) && Failed(errReply) && rest == Reqs(errReply)
    ensures multiset(Reqs(reply)) + multiset(rest) == multiset(req)
  {
    var round := new Round(client, command, |req|);
    for i := 0 to |req|
      invariant round.Valid() && round.capacity == |req| && fresh(round) && round.client == client && round.command == command
      invariant round.taken == multiset(req[..i]) && round.start == old(client.log)
    {
      assert req[..i + 1] == req[..i] + [req[i]];
      round.Submit(req[i]);
    }
    assert req[..|req|] == req;
    round.Wait();
    answers := round.answers;
    reply, errReply, rest := Drain(round.c);
  }

  function Max(a: int, b: int): int {
    if a > b then a else b
  }

  /** What one round was asked, what the client answered, and the successes and failures it gave back. */
  datatype Turn = Turn(asked: seq<BatchReq>, answers: seq<Answer>, replies: seq<BatchReply>, failures: seq<BatchReply>)

  /** Each request of a round comes back once, with what the client answered. */
  ghost predicate Answers(t: Turn) {
    && Succeeded(t.replies) && Failed(t.failures)
    && multiset(t.replies) + multiset(t.failures) == multiset(RepliesTo(t.answers))
    && multiset(Reqs(t.replies)) + multiset(Reqs(t.failures)) == multiset(t.asked)
  }

  ghost function AllAnswers(turns: seq<Turn>): seq<Answer> {
    if turns == [] then [] else AllAnswers(turns[..|turns| - 1]) + turns[|turns| - 1].answers
  }

  /** The first round is asked everything, and every other round exactly what failed in the one before. */
  ghost predicate Retries(turns: seq<Turn>, req: seq<BatchReq>) {
    && turns != [] && turns[0].asked == req
    && (forall t <- turns :: Answers(t))
    && forall i :: 0 <= i < |turns| - 1 ==> turns[i].failures != [] && turns[i + 1].asked == Reqs(turns[i].failures)
  }

  ghost function Successes(turns: seq<Turn>): seq<BatchReply> {
    if turns == [] then [] else Successes(turns[..|turns| - 1]) + turns[|turns| - 1].replies
  }

  lemma {:induction false} RetriesOn(turns: seq<Turn>, req: seq<BatchReq>, t: Turn)
    requires Retries(turns, req) && Answers(t) && turns[|turns| - 1].failures != [] && t.asked == Reqs(turns[|turns| - 1].failures)
    ensures Retries(turns + [t], req) && Successes(turns + [t]) == Successes(turns) + t.replies
    ensures AllAnswers(turns + [t]) == AllAnswers(turns) + t.answers
  {
    var all := turns + [t];
    assert all[..|turns|] == turns;
    forall i | 0 <= i < |all| - 1
      ensures all[i].failures != [] && all[i + 1].asked == Reqs(all[i].failures)
    {
      assert all[i] == turns[i];
      assert i + 1 < |turns| ==> all[i + 1] == turns[i + 1];
    }
  }

  lemma RetriesFirst(req: seq<BatchReq>, t: Turn)
    requires Answers(t) && t.asked == req
    ensures Retries([t], req) && Successes([t]) == t.replies && AllAnswers([t]) == t.answers
  {
    assert [t][..0] == [];
  }

  lemma {:induction false} SuccessesSucceed(turns: seq<Turn>)
    requires forall t <- turns :: Answers(t)
    ensures Succeeded(Successes(turns))
  {
    if turns != [] {
      var front, t := turns[..|turns| - 1], turns[|turns| - 1];
      SuccessesSucceed(front);
      assert Answers(t);
      assert forall r <- Successes(turns) :: r in Successes(front) || r in t.replies;
    }
  }

  /** Over all rounds each request comes back once: as a success of one of them, or as a failure of the last. */
  lemma {:induction false} EachOnce(turns: seq<Turn>, req: seq<BatchReq>)
    requires Retries(turns, req)
    ensures multiset(Reqs(Successes(turns))) + multiset(Reqs(turns[|turns| - 1].failures)) == multiset(req)
  {
    hide Succeeded, Failed, Reqs;
    var front, t := turns[..|turns| - 1], turns[|turns| - 1];
    assert Answers(t);
    ReqsAppend(Successes(front), t.replies);
    if |turns| == 1 {
      NoSuccesses(front);
    } else {
      FrontRetries(turns, req);
      EachOnce(front, req);
    }
  }

  lemma NoSuccesses(turns: seq<Turn>)
    requires turns == []
    ensures Reqs(Successes(turns)) == []
  {
  }

  lemma {:induction false} FrontRetries(turns: seq<Turn>, req: seq<BatchReq>)
    requires Retries(turns, req) && |turns| > 1
    ensures var front, t := turns[..|turns| - 1], turns[|turns| - 1];
            Retries(front, req) && t.asked == Reqs(front[|front| - 1].failures)
  {
    var front := turns[..|turns| - 1];
    assert forall u <- front :: u in turns;
    assert forall i :: 0 <= i < |front| ==> front[i] == turns[i];
    assert turns[|turns| - 2 + 1].asked == Reqs(turns[|turns| - 2].failures);
  }

  /**
   `BatchDo`: every request is answered exactly once, with the reply the client gave to it in one of the rounds or with
   the error of the last. There are at most max(1, retry) rounds, and as many if anything is reported to fail.
   */
  method BatchDo(client: RedisPoolClient, command: string, req: seq<BatchReq>, retry: int)
    returns (reply: seq<BatchReply>, ghost turns: seq<Turn>)
    modifies client
    ensures client.log == old(client.log) + AllAnswers(turns) && AllFor(AllAnswers(turns), command)
    ensures Retries(turns, req) && |turns| <= Max(1, retry)
    ensures reply == Successes(turns) + turns[|turns| - 1].failures
    ensures Succeeded(Successes(turns)) && multiset(Reqs(reply)) == multiset(req)
    ensures turns[|turns| - 1].failures != [] ==> |turns| == Max(1, retry)
  {
    var turn := 0;
    var todo := req;
    reply, turns := [], [];
    assert AllAnswers([]) == [];
    while true
      invariant turn == |turns| && (turn > 0 ==> turn < retry)
      invariant if turns == [] then todo == req
                else Retries(turns, req) && todo == Reqs(turns[turn - 1].failures) && todo != []
      invariant reply == Successes(turns)
      invariant client.log == old(client.log) + AllAnswers(turns) && AllFor(AllAnswers(turns), command)
      decreases retry - turn
    {
      hide Reqs, Retries, Successes, Answers, RepliesTo, AllAnswers, Succeeded, Failed, AllFor;
      turn := turn + 1;
      ghost var asked := todo;
      ghost var answers;
      var back, errReply;
      back, errReply, todo, answers := BatchDoOnce(client, command, todo);
      NextTurn(turns, req, asked, answers, back, errReply);
      AllForBoth(AllAnswers(turns), answers, command);
      turns := turns + [Turn(asked, answers, back, errReply)];
      reply := reply + back;
      if |todo| == 0 || turn >= retry {
        AllTurns(turns, req);
        reply := reply + errReply;
        return;
      }
    }
  }

  lemma AllForBoth(a: seq<Answer>, b: seq<Answer>, command: string)
    requires AllFor(a, command) && AllFor(b, command)
    ensures AllFor(a + b, command)
  {
  }

  lemma NextTurn(turns: seq<Turn>, req: seq<BatchReq>, asked: seq<BatchReq>, answers: seq<Answer>, back: seq<BatchReply>,
                 errReply: seq<BatchReply>)
    requires Answers(Turn(asked, answers, back, errReply))
    requires if turns == [] then asked == req
             else Retries(turns, req) && asked == Reqs(turns[|turns| - 1].failures) && asked != []
    ensures var t := Turn(asked, answers, back, errReply);
            && Retries(turns + [t], req) && Successes(turns + [t]) == Successes(turns) + back
            && AllAnswers(turns + [t]) == AllAnswers(turns) + answers
  {
    var t := Turn(asked, answers, back, errReply);
    if turns == [] {
      assert [] + [t] == [t];
      RetriesFirst(req, t);
    } else {
      RetriesOn(turns, req, t);
    }
  }

  lemma AllTurns(turns: seq<Turn>, req: seq<BatchReq>)
    requires Retries(turns, req)
    ensures var failures := turns[|turns| - 1].failures;
            && Succeeded(Successes(turns))
            && multiset(Reqs(Successes(turns) + failures)) == multiset(req)
            && (|Reqs(failures)| == 0 <==> failures == [])
  {
    SuccessesSucceed(turns);
    EachOnce(turns, req);
    ReqsAppend(Successes(turns), turns[|turns| - 1].failures);
  }
}
