/**
 The client half of net/dogrpc as a state machine: many calls, one bounded queue, one result pool, and for
 every connection a writer, a reader and a map of pending requests by Seq.

 One step is what one goroutine does between two points where another can be seen to act: one channel
 operation, one locked section, one atomic counter update. A step's guard is when that goroutine can take it;
 a run interleaves steps in any order. AsyncResult pointers are indices into `heap`, so that a recycled result
 and a stale pointer to it are the same cell. Timers, cancellation and broken connections are steps that
 may happen whenever their goroutine is at the point where the source looks for them.
 */
module ClientSteps {
  import opened Wrappers
  import opened Bytes
  import opened Encoding

  type Ref = nat

  /** The Done channel of a result: nil, made and open, or closed. */
  datatype Done = NoChan | Open | Closed

  datatype CallError = Overflow | TimeOut | Canceled | Broken

  datatype AsyncResult = AsyncResult(request: Option<Packet>, response: Option<Packet>, error: Option<CallError>,
                                     done: Done, canceled: bool, skipResponse: bool)

  /** CallTimeout with a number of retries; CallAsync for a response; CallAsync without (SendUDP). */
  datatype Mode = Sync(retryNum: nat) | Async | OneWay

  datatype Outcome = Reply(response: Option<Packet>) | Failed(error: CallError) | Sent

  /** Where a caller stands: before acquiring a result, at one of the three sends of callAsync, or after. */
  datatype Phase =
    | Ready
    | Sending(m: Ref)
    | Evicting(m: Ref)
    | Resending(m: Ref)
    | Waiting(m: Ref)
    | Handed(m: Ref)
    | Finished(outcome: Outcome)

  datatype Call = Call(request: Packet, mode: Mode, tryNum: nat, phase: Phase)

  /** Where a connection's writer stands in its loop. */
  datatype Writer =
    | Idle
    | Took(m: Ref)
    | Filing(m: Ref)
    | Filed(m: Ref, id: uint32)
    | Swept(m: Ref)
    | Encoding(m: Ref)
    | Stopped

  datatype Conn = Conn(pending: map<uint32, Ref>, writer: Writer, readerDone: bool)

  datatype Client = Client(codec: Codec, pendingRequests: nat, queue: seq<Ref>, heap: seq<AsyncResult>,
                           pool: multiset<Ref>, conns: seq<Conn>, count: uint32, calls: seq<Call>, panicked: bool)

  datatype Step =
    | Invoke(req: Packet, mode: Mode)
    | Acquire(c: nat, m: Ref)
    | TrySend(c: nat)
    | EvictOldest(c: nat)
    | Resend(c: nat)
    | Complete(c: nat)
    | Expire(c: nat)
    | Cancel(m: Ref)
    | Connect
    | WriterTake(k: nat)
    | WriterCheck(k: nat)
    | WriterFile(k: nat)
    | WriterSweep(k: nat, unvisited: bool)
    | WriterRecount(k: nat)
    | WriterEncode(k: nat)
    | WriterStop(k: nat)
    | ReaderDeliver(k: nat, packet: Packet)
    | ReaderStop(k: nat)
    | TeardownOne(k: nat, id: uint32, err: Option<CallError>)

  // ----- pieces of steps

  function SetCall(s: Client, c: nat, phase: Phase): Client
    requires c < |s.calls|
  {
    s.(calls := s.calls[c := s.calls[c].(phase := phase)])
  }

  function SetConn(s: Client, k: nat, conn: Conn): Client
    requires k < |s.conns|
  {
    s.(conns := s.conns[k := conn])
  }

  function SetWriter(s: Client, k: nat, w: Writer): Client
    requires k < |s.conns|
  {
    SetConn(s, k, s.conns[k].(writer := w))
  }

  /** `close(m.Done)`: closing a nil or closed channel panics. */
  function CloseDone(s: Client, m: Ref): Client
    requires m < |s.heap|
  {
    if s.heap[m].done.Open? then s.(heap := s.heap[m := s.heap[m].(done := Closed)]) else s.(panicked := true)
  }

  function FinishWith(s: Client, m: Ref, error: Option<CallError>): Client
    requires m < |s.heap|
  {
    CloseDone(s.(heap := s.heap[m := s.heap[m].(error := error)]), m)
  }

  /** `releaseAsyncResult` leaves the canceled flag as it was. */
  function Release(s: Client, m: Ref): Client
    requires m < |s.heap|
  {
    s.(heap := s.heap[m := s.heap[m].(response := None, error := None, done := NoChan, request := None)],
       pool := s.pool + multiset{m})
  }

  predicate UsePool(mode: Mode) {
    !mode.Async?
  }

  function AfterSend(mode: Mode, m: Ref): Phase {
    match mode
    case Sync(_) => Waiting(m)
    case Async => Handed(m)
    case OneWay => Finished(Sent)
  }

  predicate AnyCanceled(s: Client, pending: map<uint32, Ref>) {
    exists id :: id in pending && pending[id] < |s.heap| && s.heap[pending[id]].canceled
  }

  // ----- guards

  predicate InHeap(s: Client, w: Writer) {
    !w.Idle? && !w.Stopped? ==> w.m < |s.heap|
  }

  predicate CallAt(s: Client, c: nat) {
    && c < |s.calls|
    && (match s.calls[c].phase
        case Ready => true
        case Finished(_) => true
        case p => p.m < |s.heap|)
  }

  predicate Enabled(s: Client, l: Step) {
    && !s.panicked
    && match l
       case Invoke(_, _) => true
       case Acquire(c, m) =>
         CallAt(s, c) && s.calls[c].phase.Ready?
         && (m == |s.heap| || (UsePool(s.calls[c].mode) && m in s.pool && m < |s.heap|))
       case TrySend(c) => CallAt(s, c) && s.calls[c].phase.Sending?
       case EvictOldest(c) => CallAt(s, c) && s.calls[c].phase.Evicting? && (s.queue != [] ==> s.queue[0] < |s.heap|)
       case Resend(c) => CallAt(s, c) && s.calls[c].phase.Resending?
       case Complete(c) => CallAt(s, c) && s.calls[c].phase.Waiting? && s.heap[s.calls[c].phase.m].done.Closed?
       case Expire(c) => CallAt(s, c) && s.calls[c].phase.Waiting? && s.calls[c].mode.Sync?
       case Cancel(m) => m < |s.heap|
       case Connect => true
       case WriterTake(k) => k < |s.conns| && s.conns[k].writer.Idle? && s.queue != [] && s.queue[0] < |s.heap|
       case WriterCheck(k) => k < |s.conns| && s.conns[k].writer.Took? && InHeap(s, s.conns[k].writer)
       case WriterFile(k) => k < |s.conns| && s.conns[k].writer.Filing? && InHeap(s, s.conns[k].writer)
       case WriterSweep(k, unvisited) =>
         && k < |s.conns| && s.conns[k].writer.Filed?
         && (unvisited ==> s.conns[k].writer.id in s.conns[k].pending
                           && AnyCanceled(s, s.conns[k].pending - {s.conns[k].writer.id}))
       case WriterRecount(k) => k < |s.conns| && s.conns[k].writer.Swept?
       case WriterEncode(k) => k < |s.conns| && s.conns[k].writer.Encoding? && InHeap(s, s.conns[k].writer)
       case WriterStop(k) => k < |s.conns| && (s.conns[k].writer.Idle? || s.conns[k].writer.Encoding?)
       case ReaderDeliver(k, p) =>
         && k < |s.conns| && !s.conns[k].readerDone
         && (p.ID() in s.conns[k].pending ==> s.conns[k].pending[p.ID()] < |s.heap|)
       case ReaderStop(k) => k < |s.conns|
       case TeardownOne(k, id, _) =>
         && k < |s.conns| && s.conns[k].writer.Stopped? && s.conns[k].readerDone
         && id in s.conns[k].pending && s.conns[k].pending[id] < |s.heap|
  }

  // ----- calls (client.go 346-429)

  function DoAcquire(s: Client, c: nat, m: Ref): Client
    requires Enabled(s, Acquire(c, m))
  {
    var call := s.calls[c];
    var was := if m < |s.heap| then s.heap[m] else AsyncResult(None, None, None, NoChan, false, false);
    var cell := was.(request := Some(call.request), skipResponse := call.mode.OneWay?,
                     done := if call.mode.OneWay? then was.done else Open);
    var s1 := s.(heap := if m < |s.heap| then s.heap[m := cell] else s.heap + [cell],
                 pool := if m < |s.heap| then s.pool - multiset{m} else s.pool);
    SetCall(s1, c, Sending(m))
  }

  function DoTrySend(s: Client, c: nat): Client
    requires Enabled(s, TrySend(c))
  {
    var call := s.calls[c];
    var m := call.phase.m;
    if |s.queue| < s.pendingRequests then SetCall(s.(queue := s.queue + [m]), c, AfterSend(call.mode, m))
    else if call.mode.OneWay? then SetCall(Release(s, m), c, Finished(Failed(TimeOut)))
    else SetCall(s, c, Evicting(m))
  }

  function DoEvict(s: Client, c: nat): Client
    requires Enabled(s, EvictOldest(c))
  {
    var call := s.calls[c];
    var s1 :=
      if s.queue == [] then s
      else
        var mm := s.queue[0];
        var rest := s.(queue := s.queue[1..]);
        if !s.heap[mm].done.NoChan? then FinishWith(rest, mm, Some(Overflow))
        else if UsePool(call.mode) then Release(rest, mm)
        else rest;
    SetCall(s1, c, Resending(call.phase.m))
  }

  function DoResend(s: Client, c: nat): Client
    requires Enabled(s, Resend(c))
  {
    var call := s.calls[c];
    var m := call.phase.m;
    if |s.queue| < s.pendingRequests then SetCall(s.(queue := s.queue + [m]), c, AfterSend(call.mode, m))
    else SetCall(if UsePool(call.mode) then Release(s, m) else s, c, Finished(Failed(Overflow)))
  }

  function DoComplete(s: Client, c: nat): Client
    requires Enabled(s, Complete(c))
  {
    var m := s.calls[c].phase.m;
    var cell := s.heap[m];
    SetCall(Release(s, m), c, Finished(if cell.error.None? then Reply(cell.response) else Failed(cell.error.value)))
  }

  function DoExpire(s: Client, c: nat): Client
    requires Enabled(s, Expire(c))
  {
    var call := s.calls[c];
    var m := call.phase.m;
    var s1 := s.(heap := s.heap[m := s.heap[m].(canceled := true)]);
    var tries := call.tryNum + 1;
    s1.(calls := s.calls[c := call.(tryNum := tries,
                                    phase := if tries <= call.mode.retryNum then Ready else Finished(Failed(TimeOut)))])
  }

  // ----- a connection's writer and reader (client.go 163-328)

  function DoTake(s: Client, k: nat): Client
    requires Enabled(s, WriterTake(k))
  {
    SetWriter(s.(queue := s.queue[1..]), k, Took(s.queue[0]))
  }

  function DoCheck(s: Client, k: nat): Client
    requires Enabled(s, WriterCheck(k))
  {
    var m := s.conns[k].writer.m;
    var cell := s.heap[m];
    if cell.canceled then
      SetWriter(if !cell.done.NoChan? then FinishWith(s, m, Some(Canceled)) else Release(s, m), k, Idle)
    else
      SetWriter(s, k, if cell.skipResponse then Encoding(m) else Filing(m))
  }

  function DoFile(s: Client, k: nat): Client
    requires Enabled(s, WriterFile(k))
  {
    var conn := s.conns[k];
    var m := conn.writer.m;
    if s.heap[m].request.None? then s.(panicked := true)
    else
      var id := s.heap[m].request.value.ID();
      SetConn(s.(count := U32(s.count + 1)), k,
              conn.(pending := conn.pending[id := m],
                    writer := if |conn.pending| > 3 * s.pendingRequests then Filed(m, id) else Encoding(m)))
  }

  /** Every entry lowers the counter; any canceled one removes the entry just filed, wherever the walk stands. */
  function DoSweep(s: Client, k: nat, unvisited: bool): Client
    requires Enabled(s, WriterSweep(k, unvisited))
  {
    var conn := s.conns[k];
    var walked := |conn.pending| - if unvisited then 1 else 0;
    SetConn(s.(count := U32(s.count - walked)), k,
            conn.(pending := if AnyCanceled(s, conn.pending) then conn.pending - {conn.writer.id} else conn.pending,
                  writer := Swept(conn.writer.m)))
  }

  function DoRecount(s: Client, k: nat): Client
    requires Enabled(s, WriterRecount(k))
  {
    SetWriter(s, k, if |s.conns[k].pending| > 3 * s.pendingRequests then Stopped else Encoding(s.conns[k].writer.m))
  }

  function DoEncode(s: Client, k: nat): Client
    requires Enabled(s, WriterEncode(k))
  {
    SetWriter(s, k, if Emits(s, k).Some? then Idle else Stopped)
  }

  /** The packet an Encode call writes: whatever request the cell holds by then. */
  function Emits(s: Client, k: nat): Option<Packet>
    requires k < |s.conns| && s.conns[k].writer.Encoding? && InHeap(s, s.conns[k].writer)
  {
    match s.heap[s.conns[k].writer.m].request
    case None => None
    case Some(p) => if Encodable(s.codec, p) then Some(p) else None
  }

  function DoDeliver(s: Client, k: nat, p: Packet): Client
    requires Enabled(s, ReaderDeliver(k, p))
  {
    var conn := s.conns[k];
    if p.ID() !in conn.pending then s
    else
      var m := conn.pending[p.ID()];
      var s1 := SetConn(s, k, conn.(pending := conn.pending - {p.ID()}));
      CloseDone(s1.(count := U32(s.count - 1), heap := s.heap[m := s.heap[m].(response := Some(p))]), m)
  }

  function DoTeardown(s: Client, k: nat, id: uint32, err: Option<CallError>): Client
    requires Enabled(s, TeardownOne(k, id, err))
  {
    var conn := s.conns[k];
    var m := conn.pending[id];
    var s1 := SetConn(s, k, conn.(pending := conn.pending - {id})).(count := U32(s.count - 1));
    if !s.heap[m].done.NoChan? then FinishWith(s1, m, err) else s1.(heap := s.heap[m := s.heap[m].(error := err)])
  }

  function Apply(s: Client, l: Step): Client
    requires Enabled(s, l)
  {
    match l
    case Invoke(req, mode) => s.(calls := s.calls + [Call(req, mode, 0, Ready)])
    case Acquire(c, m) => DoAcquire(s, c, m)
    case TrySend(c) => DoTrySend(s, c)
    case EvictOldest(c) => DoEvict(s, c)
    case Resend(c) => DoResend(s, c)
    case Complete(c) => DoComplete(s, c)
    case Expire(c) => DoExpire(s, c)
    case Cancel(m) => s.(heap := s.heap[m := s.heap[m].(canceled := true)])
    case Connect => s.(conns := s.conns + [Conn(map[], Idle, false)])
    case WriterTake(k) => DoTake(s, k)
    case WriterCheck(k) => DoCheck(s, k)
    case WriterFile(k) => DoFile(s, k)
    case WriterSweep(k, unvisited) => DoSweep(s, k, unvisited)
    case WriterRecount(k) => DoRecount(s, k)
    case WriterEncode(k) => DoEncode(s, k)
    case WriterStop(k) => SetWriter(s, k, Stopped)
    case ReaderDeliver(k, p) => DoDeliver(s, k, p)
    case ReaderStop(k) => SetConn(s, k, s.conns[k].(readerDone := true))
    case TeardownOne(k, id, err) => DoTeardown(s, k, id, err)
  }

  function Start(codec: Codec, pendingRequests: nat): Client {
    Client(codec, pendingRequests, [], [], multiset{}, [], 0, [], false)
  }
}
