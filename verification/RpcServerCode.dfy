/**
 net/dogrpc/rpc_server.go and dog_server.go: which handler answers a command, and what the answer is.

 `H` is a wrapped handler and `F` a function to be wrapped; what a handler returns is arbitrary.
 */
module RpcServerCode {
  import opened Wrappers
  import opened Bytes
  import opened Encoding
  import S = ServerSteps

  // ----- registration

  /** The handler a list of registrations leaves for a command: the first one made for it. */
  function FirstFor<H>(regs: seq<(uint32, H)>, cmd: uint32): Option<H> {
    if regs == [] then None
    else
      var earlier := FirstFor(regs[..|regs| - 1], cmd);
      if earlier.None? && regs[|regs| - 1].0 == cmd then Some(regs[|regs| - 1].1) else earlier
  }

  /** Later registrations never change the answer. */
  lemma {:induction false} FirstForStays<H>(regs: seq<(uint32, H)>, more: seq<(uint32, H)>, cmd: uint32)
    ensures FirstFor(regs, cmd).Some? ==> FirstFor(regs + more, cmd) == FirstFor(regs, cmd)
    ensures FirstFor(regs + more, cmd).None? <==> FirstFor(regs, cmd).None? && forall r <- more :: r.0 != cmd
  {
    if more == [] {
      assert regs + more == regs;
    } else {
      assert (regs + more)[..|regs + more| - 1] == regs + more[..|more| - 1];
      FirstForStays(regs, more[..|more| - 1], cmd);
      assert more == more[..|more| - 1] + [more[|more| - 1]];
    }
  }

  /** A call of a handler, and what it returned. */
  datatype Handled<H> = Handled(f: H, clientAddr: Option<nat>, req: Packet, code: uint32, body: Slice)

  class RpcServer<H, F> {
    const codec: Codec
    const wrap: F -> Option<H>
    var defaultHandler: map<uint32, H>
    var wrapHandler: map<uint32, F>
    var handled: seq<Handled<H>>
    ghost var regs: seq<(uint32, H)>

    /** The table holds, for every command, the first handler registered for it. */
    ghost predicate Valid()
      reads this
    {
      forall cmd: uint32 :: FirstFor(regs, cmd) == if cmd in defaultHandler then Some(defaultHandler[cmd]) else None
    }

    constructor (codec: Codec, wrap: F -> Option<H>)
      ensures Valid() && defaultHandler == map[] && wrapHandler == map[] && regs == [] && handled == [] && this.wrap == wrap && this.codec == codec
    {
      this.codec, this.wrap := codec, wrap;
      defaultHandler, wrapHandler, handled, regs := map[], map[], [], [];
    }

    method AddHandler(headCmd: uint32, f: H)
      requires Valid()
      modifies `defaultHandler, `regs
      ensures Valid() && regs == old(regs) + [(headCmd, f)]
      ensures defaultHandler == if headCmd in old(defaultHandler) then old(defaultHandler) else old(defaultHandler)[headCmd := f]
    {
      assert (regs + [(headCmd, f)])[..|regs|] == regs;
      regs := regs + [(headCmd, f)];
      if headCmd in defaultHandler {
        return;
      }
      defaultHandler := defaultHandler[headCmd := f];
    }

    method AddDogHandler(headCmd: uint32, f: F)
      modifies `wrapHandler
      ensures wrapHandler == if headCmd in old(wrapHandler) then old(wrapHandler) else old(wrapHandler)[headCmd := f]
    {
      if headCmd in wrapHandler {
        return;
      }
      wrapHandler := wrapHandler[headCmd := f];
    }

    /** The walk over the functions takes any order and stops at the first that cannot be wrapped. */
    method DogRpcRegister() returns (ok: bool)
      requires Valid()
      modifies `defaultHandler, `regs
      ensures Valid()
      ensures ok <==> forall cmd <- wrapHandler.Keys :: wrap(wrapHandler[cmd]).Some?
      ensures forall cmd <- old(defaultHandler).Keys :: cmd in defaultHandler && defaultHandler[cmd] == old(defaultHandler)[cmd]
      ensures forall cmd <- defaultHandler.Keys - old(defaultHandler).Keys ::
                cmd in wrapHandler && wrap(wrapHandler[cmd]) == Some(defaultHandler[cmd])
      ensures ok ==> wrapHandler.Keys <= defaultHandler.Keys
    {
      var todo := wrapHandler.Keys;
      while todo != {}
        invariant Valid() && todo <= wrapHandler.Keys
        invariant forall cmd <- wrapHandler.Keys - todo :: wrap(wrapHandler[cmd]).Some? && cmd in defaultHandler
        invariant forall cmd <- old(defaultHandler).Keys :: cmd in defaultHandler && defaultHandler[cmd] == old(defaultHandler)[cmd]
        invariant forall cmd <- defaultHandler.Keys - old(defaultHandler).Keys ::
                    cmd in wrapHandler && wrap(wrapHandler[cmd]) == Some(defaultHandler[cmd])
      {
        var k :| k in todo;
        todo := todo - {k};
        var wf := wrap(wrapHandler[k]);
        if wf.None? {
          return false;
        }
        AddHandler(k, wf.value);
      }
      return true;
    }

    /** The filter chain and the handler at its end, which may return anything. */
    method CallHandler(f: H, clientAddr: Option<nat>, req: Packet) returns (code: uint32, body: Slice)
      modifies `handled
      ensures handled == old(handled) + [Handled(f, clientAddr, req, code, body)]
    {
      code, body := *, *;
      handled := handled + [Handled(f, clientAddr, req, code, body)];
    }

    /** `dispatchPacket` and `dogDispatchPacket`: the command's handler is called once, and its answer is passed on. */
    method DispatchPacket(clientAddr: Option<nat>, req: Packet) returns (rsp: Packet, ghost code: uint32, ghost body: Slice)
      modifies `handled
      ensures rsp == S.Dispatch(codec, defaultHandler.Keys, req, code, body)
      ensures rsp.ID() == req.ID() && rsp.Cmd() == req.Cmd()
      ensures handled == old(handled) + Calls(clientAddr, req, code, body)
      ensures req.Cmd() in defaultHandler ==> rsp.ErrCode() == code && rsp.Body() == body
      ensures req.Cmd() !in defaultHandler ==> rsp.ErrCode() == 10004 && rsp.Body() == Data([])
    {
      var headCmd := req.Cmd();
      if headCmd !in defaultHandler {
        return NewPacket(codec, headCmd, Data([]), req.ID(), S.INVALID_PARAM), 0, Nil;
      }
      var c, b := CallHandler(defaultHandler[headCmd], clientAddr, req);
      return NewPacket(codec, req.Cmd(), b, req.ID(), c), c, b;
    }

    /** The calls one request leads to: of the handler of its command, if there is one. */
    ghost function Calls(clientAddr: Option<nat>, req: Packet, code: uint32, body: Slice): seq<Handled<H>>
      reads `defaultHandler
    {
      if req.Cmd() in defaultHandler then [Handled(defaultHandler[req.Cmd()], clientAddr, req, code, body)] else []
    }
  }
}
