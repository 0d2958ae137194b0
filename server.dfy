/**
 * The back end of the tunnel (`handle` in server/proxy.go): for every request
 * read off a connection from the CDN it checks the edge allowlist, answers the
 * health check, recovers the real destination from `X-Host`/`X-Method`, and
 * either tunnels (CONNECT, to port 443) or forwards (anything else, to port 80).
 */
module Server {
  import opened Wrappers
  import opened Headers
  import opened HostPort
  import opened Http
  import opened Relay
  import opened IPAddr
  import opened Allowlist

  const HealthHost := "backend.fronted.site"
  const HealthPath := "/healthcheck.txt"

  /** The reply to a connection from outside the allowlist. */
  function Forbidden(proto: string, remote: string): string
  {
    proto + " 403\r\n\r\nI don't like you, " + remote + "\r\n\r\n"
  }

  /** The reply to the CDN's health check. */
  function HealthReply(proto: string): string
  {
    proto + " 200\r\n\r\ncontent-length: 0\r\n\r\n"
  }

  /** The reply to a request without a destination. */
  function NotFoundReply(proto: string): string
  {
    proto + " 404 Not found\r\n\r\n"
  }

  /** The CDN's health probe: all three conditions together. */
  predicate IsHealthCheck(r: Request)
  {
    r.host == HealthHost && r.url.path == HealthPath && r.verb == "HEAD"
  }

  /**
   * The undisguise step: Host becomes the `X-Host` value and the method the
   * `X-Method` value when that is non-empty; no destination without `X-Host`.
   */
  function Undisguise(r: Request): (u: Option<Request>)
    ensures u.Some? <==> Get(r.header, "X-Host") != ""
    ensures u.Some? ==> u.value.host == Get(r.header, "X-Host") && u.value.header == r.header
  {
    var xhost := Get(r.header, "X-Host");
    if xhost == "" then None
    else
      var xmethod := Get(r.header, "X-Method");
      Some(r.(host := xhost, verb := if xmethod != "" then xmethod else r.verb))
  }

  /** The same step on the request object, as `handle` performs it. */
  method UndisguiseInPlace(req: HttpRequest) returns (found: bool)
    modifies req
    ensures found <==> Undisguise(old(req.Value())).Some?
    ensures found ==> req.Value() == Undisguise(old(req.Value())).value
    ensures !found ==> req.Value() == old(req.Value())
  {
    var xhost := Get(req.header, "X-Host");
    if xhost != "" {
      req.host := xhost;
    } else {
      return false;
    }
    var xmethod := Get(req.header, "X-Method");
    if xmethod != "" {
      req.verb := xmethod;
    }
    return true;
  }

  /** The one thing `handle` decides to do with a request. */
  datatype Action =
    | Reject(reply: string)
    | HealthCheck(reply: string)
    | NotFound(reply: string)
    | Tunnel(addr: string, req: Request)
    | Forward(addr: string, req: Request)

  /**
   * The routing decision for request `r` on a connection from `remote`: a
   * refusal exactly when the remote is not accepted, and a dial only for an
   * accepted request that is not the health check, carrying the undisguised request.
   */
  function Route(nets: seq<Prefix>, remote: string, r: Request): (a: Action)
    ensures a.Reject? <==> Check(nets, remote) != Accepted
    ensures a.Tunnel? || a.Forward? ==>
      Check(nets, remote) == Accepted && !IsHealthCheck(r) && Undisguise(r) == Some(a.req)
  {
    if Check(nets, remote) != Accepted then Reject(Forbidden(r.proto, remote))
    else if IsHealthCheck(r) then HealthCheck(HealthReply(r.proto))
    else Destination(r)
  }

  /** An allowed request that is not the health check goes where `X-Host` says, or nowhere. */
  function Destination(r: Request): (a: Action)
    ensures a.NotFound? <==> Undisguise(r).None?
  {
    match Undisguise(r)
    case None => NotFound(NotFoundReply(r.proto))
    case Some(u) => Target(u)
  }

  /**
   * An undisguised CONNECT is tunnelled to port 443; anything else is
   * forwarded to port 80. The request is passed on as it is, and the address
   * dialled splits back into its host and the port.
   */
  function Target(u: Request): (a: Action)
    ensures a.Tunnel? || a.Forward?
    ensures a.req == u
    ensures a.Tunnel? <==> u.verb == "CONNECT"
    ensures '[' !in u.host && ']' !in u.host ==>
      SplitHostPort(a.addr) == Ok((u.host, if u.verb == "CONNECT" then "443" else "80"))
  {
    var port := if u.verb == "CONNECT" then "443" else "80";
    assert ':' !in port && '[' !in port && ']' !in port;
    if u.verb == "CONNECT" then Tunnel(JoinHostPort(u.host, port), u)
    else Forward(JoinHostPort(u.host, port), u)
  }

  // ------------------------------------------------------------ one request

  /** A request read off the connection, with what the network does in answer to it. */
  datatype Incoming = Incoming(
    req: Request,
    dialOk: bool,            // DialTimeout to the destination succeeds
    replyOk: bool,           // writing `200 Connection established` succeeds
    sendOk: bool,            // forwarding the request succeeds
    copyBackOk: bool,        // copying the response back succeeds
    firstCopy: CopyError,    // relay: destination to CDN (calling goroutine)
    secondCopy: CopyError)   // relay: CDN to destination (spawned goroutine)

  /** The observable steps of a session. */
  datatype Effect =
    | Write(text: string)
    | Dial(addr: string, ok: bool)
    | Send(addr: string, req: Request, ok: bool)
    | CopyBack(addr: string, ok: bool)
    | Relayed(addr: string, result: CopyError)
    | CloseRemote(addr: string)
    | CloseClient

  /** Why a session ended. */
  datatype End = ReadFailed | Rejected | HealthChecked | NoXHost | DialFailed | ReplyFailed | Tunnelled(result: CopyError)

  /**
   * One turn of the loop: its effects, the destinations it dialled (each
   * closed by a deferred call when `handle` returns), and whether it ends the session.
   */
  datatype Outcome = Outcome(effects: seq<Effect>, dialled: seq<string>, stop: Option<End>)

  /**
   * What carrying out `action` does, given how the network answers. Only a
   * forward lets the session go on, and only a tunnel or a forward dials,
   * and then only the action's own address.
   */
  function Perform(action: Action, inc: Incoming): (o: Outcome)
    ensures o.stop.None? <==> action.Forward?
    ensures o.dialled == [] || ((action.Tunnel? || action.Forward?) && o.dialled == [action.addr])
  {
    match action
    case Reject(reply) => Outcome([Write(reply)], [], Some(Rejected))
    case HealthCheck(reply) => Outcome([Write(reply)], [], Some(HealthChecked))
    case NotFound(reply) => Outcome([Write(reply)], [], Some(NoXHost))
    case Tunnel(addr, u) =>
      if !inc.dialOk then Outcome([Dial(addr, false)], [], Some(DialFailed))
      else if !inc.replyOk then Outcome([Dial(addr, true), Write(Established(u.proto))], [addr], Some(ReplyFailed))
      else
        var result := Classify(inc.firstCopy, inc.secondCopy);
        Outcome([Dial(addr, true), Write(Established(u.proto)), Relayed(addr, result)], [addr], Some(Tunnelled(result)))
    case Forward(addr, u) =>
      if !inc.dialOk then Outcome([Dial(addr, false)], [], None)
      else if !inc.sendOk then Outcome([Dial(addr, true), Send(addr, u, false)], [addr], None)
      else Outcome([Dial(addr, true), Send(addr, u, true), CopyBack(addr, inc.copyBackOk)], [addr], None)
  }

  /** One turn of the loop on request `inc`. */
  function Step(nets: seq<Prefix>, remote: string, inc: Incoming): Outcome
  {
    Perform(Route(nets, remote, inc.req), inc)
  }

  /** The body of `handle`'s loop for one request: allowlist first, then the health check. */
  method Serve(nets: seq<Prefix>, remote: string, inc: Incoming) returns (o: Outcome)
    ensures o == Step(nets, remote, inc)
  {
    var verdict := CheckAddr(nets, remote);
    if verdict != Accepted {
      return Outcome([Write(Forbidden(inc.req.proto, remote))], [], Some(Rejected));
    }
    var req := new HttpRequest(inc.req);
    if req.host == HealthHost && req.url.path == HealthPath && req.verb == "HEAD" {
      return Outcome([Write(HealthReply(req.proto))], [], Some(HealthChecked));
    }
    o := Dispatch(req, inc);
  }

  /** Undisguise the request in place; without `X-Host`, answer 404. */
  method Dispatch(req: HttpRequest, inc: Incoming) returns (o: Outcome)
    modifies req
    ensures o == Perform(Destination(old(req.Value())), inc)
    ensures Undisguise(old(req.Value())).Some? ==> req.Value() == Undisguise(old(req.Value())).value
    ensures Undisguise(old(req.Value())).None? ==> req.Value() == old(req.Value())
  {
    var found := UndisguiseInPlace(req);
    if !found {
      return Outcome([Write(NotFoundReply(req.proto))], [], Some(NoXHost));
    }
    o := Proxy(req, inc);
  }

  /** Dial the recovered destination and tunnel or forward to it. */
  method Proxy(req: HttpRequest, inc: Incoming) returns (o: Outcome)
    ensures o == Perform(Target(req.Value()), inc)
  {
    if req.verb == "CONNECT" {
      var addr := JoinHostPort(req.host, "443");
      if !inc.dialOk {
        return Outcome([Dial(addr, false)], [], Some(DialFailed));
      }
      if !inc.replyOk {
        return Outcome([Dial(addr, true), Write(Established(req.proto))], [addr], Some(ReplyFailed));
      }
      var result := Classify(inc.firstCopy, inc.secondCopy);
      return Outcome([Dial(addr, true), Write(Established(req.proto)), Relayed(addr, result)], [addr], Some(Tunnelled(result)));
    }
    var addr := JoinHostPort(req.host, "80");
    if !inc.dialOk {
      return Outcome([Dial(addr, false)], [], None);
    }
    if !inc.sendOk {
      return Outcome([Dial(addr, true), Send(addr, req.Value(), false)], [addr], None);
    }
    return Outcome([Dial(addr, true), Send(addr, req.Value(), true), CopyBack(addr, inc.copyBackOk)], [addr], None);
  }

  // ------------------------------------------------------------ the session

  /** Deferred `remoteConn.Close()` calls, run last-in first-out. */
  function Closes(open: seq<string>): (cs: seq<Effect>)
    ensures |cs| == |open|
    ensures forall i | 0 <= i < |cs| :: cs[i] == CloseRemote(open[|open| - 1 - i])
  {
    if open == [] then []
    else [CloseRemote(open[|open| - 1])] + Closes(open[..|open| - 1])
  }

  datatype Transcript = Transcript(effects: seq<Effect>, end: End)

  function Prepend(before: seq<Effect>, t: Transcript): Transcript
  {
    Transcript(before + t.effects, t.end)
  }

  /** The turns the loop would take on each request, were it to reach them. */
  function Steps(nets: seq<Prefix>, remote: string, ins: seq<Incoming>): (os: seq<Outcome>)
    ensures |os| == |ins|
    ensures forall j | 0 <= j < |ins| :: os[j] == Step(nets, remote, ins[j])
  {
    if ins == [] then [] else [Step(nets, remote, ins[0])] + Steps(nets, remote, ins[1..])
  }

  /**
   * The rest of a session given its remaining turns `os` (the next read fails
   * once they run out), with the destinations in `open` awaiting their deferred close.
   */
  function Run(os: seq<Outcome>, open: seq<string>): (t: Transcript)
    ensures |t.effects| > 0 && t.effects[|t.effects| - 1] == CloseClient
  {
    if os == [] then Transcript(Closes(open) + [CloseClient], ReadFailed)
    else if os[0].stop.Some? then
      Transcript(os[0].effects + Closes(open + os[0].dialled) + [CloseClient], os[0].stop.value)
    else Prepend(os[0].effects, Run(os[1..], open + os[0].dialled))
  }

  /** A whole session on a connection from `remote`; the connection is always closed last. */
  function Session(nets: seq<Prefix>, remote: string, ins: seq<Incoming>): (t: Transcript)
    ensures |t.effects| > 0 && t.effects[|t.effects| - 1] == CloseClient
  {
    Run(Steps(nets, remote, ins), [])
  }

  /** `handle`: serve requests until one ends the session or a read fails. */
  method Handle(nets: seq<Prefix>, remote: string, ins: seq<Incoming>) returns (t: Transcript)
    ensures t == Session(nets, remote, ins)
  {
    ghost var os := Steps(nets, remote, ins);
    var trace: seq<Effect> := [];
    var open: seq<string> := [];
    var i := 0;
    assert os[0..] == os;
    while i < |ins|
      invariant 0 <= i <= |ins|
      invariant Run(os, []) == Prepend(trace, Run(os[i..], open))
    {
      var o := Serve(nets, remote, ins[i]);
      assert o == os[i];
      RunAt(os, i, open);
      if o.stop.Some? {
        open := open + o.dialled;
        RegroupClose(trace, o.effects, Closes(open), [CloseClient]);
        trace := trace + o.effects + (Closes(open) + [CloseClient]);
        return Transcript(trace, o.stop.value);
      }
      PrependTwice(trace, o.effects, Run(os[i + 1..], open + o.dialled));
      trace := trace + o.effects;
      open := open + o.dialled;
      i := i + 1;
    }
    assert os[i..] == [];
    trace := trace + (Closes(open) + [CloseClient]);
    return Transcript(trace, ReadFailed);
  }

  /** One turn of `Run` taken from the middle of the turn list. */
  lemma RunAt(os: seq<Outcome>, i: nat, open: seq<string>)
    requires i < |os|
    ensures Run(os[i..], open) ==
      if os[i].stop.Some? then Transcript(os[i].effects + Closes(open + os[i].dialled) + [CloseClient], os[i].stop.value)
      else Prepend(os[i].effects, Run(os[i + 1..], open + os[i].dialled))
  {
    assert os[i..][0] == os[i] && os[i..][1..] == os[i + 1..];
  }

  lemma RegroupClose(a: seq<Effect>, b: seq<Effect>, c: seq<Effect>, d: seq<Effect>)
    ensures a + (b + c + d) == a + b + (c + d)
  {
  }

  lemma ConcatAssoc(a: seq<Effect>, b: seq<Effect>, c: seq<Effect>)
    ensures a + (b + c) == a + b + c
  {
  }

  lemma PrependTwice(a: seq<Effect>, b: seq<Effect>, t: Transcript)
    ensures Prepend(a, Prepend(b, t)) == Prepend(a + b, t)
  {
    assert a + (b + t.effects) == a + b + t.effects;
  }

  // ------------------------------------------------------------ routing lemmas

  /** The allowlist comes first: a remote outside it is refused whatever it asks for, with exactly this text. */
  lemma RejectIffNotListed(nets: seq<Prefix>, remote: string, r: Request)
    ensures Route(nets, remote, r).Reject? <==> Check(nets, remote) != Accepted
    ensures Route(nets, remote, r).Reject? ==>
      Route(nets, remote, r).reply == r.proto + " 403\r\n\r\nI don't like you, " + remote + "\r\n\r\n"
  {
  }

  /** The health check is answered exactly when host, path and method all match, on an allowed connection. */
  lemma HealthCheckIff(nets: seq<Prefix>, remote: string, r: Request)
    ensures Route(nets, remote, r).HealthCheck? <==>
      Check(nets, remote) == Accepted
      && r.host == "backend.fronted.site" && r.url.path == "/healthcheck.txt" && r.verb == "HEAD"
    ensures Route(nets, remote, r).HealthCheck? ==>
      Route(nets, remote, r).reply == r.proto + " 200\r\n\r\ncontent-length: 0\r\n\r\n"
  {
  }

  /** An allowed, non-health-check request with an empty or missing `X-Host` gets the 404 text. */
  lemma NotFoundIff(nets: seq<Prefix>, remote: string, r: Request)
    ensures Route(nets, remote, r).NotFound? <==>
      Check(nets, remote) == Accepted && !IsHealthCheck(r) && Get(r.header, "X-Host") == ""
    ensures Route(nets, remote, r).NotFound? ==> Route(nets, remote, r).reply == r.proto + " 404 Not found\r\n\r\n"
  {
  }

  /**
   * Undisguising replaces Host by `X-Host`, and the method by `X-Method` only
   * when that is non-empty; every other field is kept, headers included.
   */
  lemma UndisguiseFields(r: Request)
    ensures Undisguise(r).Some? <==> Get(r.header, "X-Host") != ""
    ensures Undisguise(r).Some? ==>
      var u := Undisguise(r).value;
      u.host == Get(r.header, "X-Host")
      && (Get(r.header, "X-Method") != "" ==> u.verb == Get(r.header, "X-Method"))
      && (Get(r.header, "X-Method") == "" ==> u.verb == r.verb)
      && u.proto == r.proto && u.requestURI == r.requestURI && u.url == r.url && u.header == r.header
  {
  }

  /** A recovered CONNECT is tunnelled to `<X-Host>:443`; any other method is forwarded to `<X-Host>:80`. */
  lemma DialTargets(nets: seq<Prefix>, remote: string, r: Request)
    ensures Route(nets, remote, r).Tunnel? <==>
      Check(nets, remote) == Accepted && !IsHealthCheck(r)
      && Undisguise(r).Some? && Undisguise(r).value.verb == "CONNECT"
    ensures Route(nets, remote, r).Forward? <==>
      Check(nets, remote) == Accepted && !IsHealthCheck(r)
      && Undisguise(r).Some? && Undisguise(r).value.verb != "CONNECT"
    ensures Route(nets, remote, r).Tunnel? ==>
      Route(nets, remote, r).addr == JoinHostPort(Get(r.header, "X-Host"), "443")
    ensures Route(nets, remote, r).Forward? ==>
      Route(nets, remote, r).addr == JoinHostPort(Get(r.header, "X-Host"), "80")
  {
  }

  /** Only a forwarded request keeps the session going. */
  lemma OnlyForwardContinues(nets: seq<Prefix>, remote: string, inc: Incoming)
    ensures Step(nets, remote, inc).stop.None? <==> Route(nets, remote, inc.req).Forward?
  {
  }

  /**
   * A recovered CONNECT: a failed dial ends the session; otherwise the
   * destination is dialled, the CDN is told `<proto> 200 Connection
   * established` with the request's own proto, and, when that write succeeds,
   * the relay follows with its verdict. The session ends in every case.
   */
  lemma TunnelStep(nets: seq<Prefix>, remote: string, inc: Incoming)
    requires Route(nets, remote, inc.req).Tunnel?
    ensures Step(nets, remote, inc).stop.Some?
    ensures !inc.dialOk ==>
      Step(nets, remote, inc) == Outcome([Dial(Route(nets, remote, inc.req).addr, false)], [], Some(DialFailed))
    ensures inc.dialOk ==>
      |Step(nets, remote, inc).effects| >= 2 && Step(nets, remote, inc).dialled == [Route(nets, remote, inc.req).addr]
    ensures inc.dialOk ==>
      Step(nets, remote, inc).effects[..2] == [Dial(Route(nets, remote, inc.req).addr, true),
                                                  Write(inc.req.proto + " 200 Connection established\r\n\r\n")]
    ensures inc.dialOk && !inc.replyOk ==>
      |Step(nets, remote, inc).effects| == 2 && Step(nets, remote, inc).stop == Some(ReplyFailed)
    ensures inc.dialOk && inc.replyOk ==>
      |Step(nets, remote, inc).effects| == 3
      && Step(nets, remote, inc).effects[2] == Relayed(Route(nets, remote, inc.req).addr, Classify(inc.firstCopy, inc.secondCopy))
      && Step(nets, remote, inc).stop == Some(Tunnelled(Classify(inc.firstCopy, inc.secondCopy)))
  {
    var u := Route(nets, remote, inc.req).req;
    assert u.proto == inc.req.proto;
  }

  /** The health check is answered `<proto> 200` with an empty body, nothing is dialled, and the session ends. */
  lemma HealthCheckStep(nets: seq<Prefix>, remote: string, inc: Incoming)
    requires Route(nets, remote, inc.req).HealthCheck?
    ensures Step(nets, remote, inc) ==
      Outcome([Write(inc.req.proto + " 200\r\n\r\ncontent-length: 0\r\n\r\n")], [], Some(HealthChecked))
  {
  }

  /** Without a destination the CDN is answered 404, nothing is dialled, and the session ends. */
  lemma NotFoundStep(nets: seq<Prefix>, remote: string, inc: Incoming)
    requires Route(nets, remote, inc.req).NotFound?
    ensures Step(nets, remote, inc) ==
      Outcome([Write(inc.req.proto + " 404 Not found\r\n\r\n")], [], Some(NoXHost))
  {
  }

  /**
   * Any other recovered request: the destination on port 80 is dialled; once
   * connected the undisguised request is sent, and once sent the response is
   * copied back. The session goes on whatever fails.
   */
  lemma ForwardStep(nets: seq<Prefix>, remote: string, inc: Incoming)
    requires Route(nets, remote, inc.req).Forward?
    ensures Step(nets, remote, inc).stop == None
    ensures Route(nets, remote, inc.req).addr == JoinHostPort(Get(inc.req.header, "X-Host"), "80")
    ensures |Step(nets, remote, inc).effects| >= 1
      && Step(nets, remote, inc).effects[0] == Dial(Route(nets, remote, inc.req).addr, inc.dialOk)
    ensures !inc.dialOk ==> |Step(nets, remote, inc).effects| == 1 && Step(nets, remote, inc).dialled == []
    ensures inc.dialOk ==>
      |Step(nets, remote, inc).effects| >= 2 && Step(nets, remote, inc).dialled == [Route(nets, remote, inc.req).addr]
      && Step(nets, remote, inc).effects[1] ==
           Send(Route(nets, remote, inc.req).addr, Undisguise(inc.req).value, inc.sendOk)
    ensures inc.dialOk && !inc.sendOk ==> |Step(nets, remote, inc).effects| == 2
    ensures inc.dialOk && inc.sendOk ==>
      |Step(nets, remote, inc).effects| == 3
      && Step(nets, remote, inc).effects[2] == CopyBack(Route(nets, remote, inc.req).addr, inc.copyBackOk)
  {
    var u := Undisguise(inc.req).value;
    assert Route(nets, remote, inc.req) == Target(u);
  }

  // ------------------------------------------------------------ session lemmas

  /** Destinations successfully dialled, in order. */
  function Dialled(es: seq<Effect>): seq<string>
  {
    if es == [] then []
    else (if es[0].Dial? && es[0].ok then [es[0].addr] else []) + Dialled(es[1..])
  }

  predicate CloseFree(es: seq<Effect>)
  {
    forall i | 0 <= i < |es| :: !es[i].CloseRemote? && !es[i].CloseClient?
  }

  lemma {:induction false} DialledAppend(a: seq<Effect>, b: seq<Effect>)
    ensures Dialled(a + b) == Dialled(a) + Dialled(b)
  {
    if a == [] {
      assert a + b == b;
    } else {
      assert (a + b)[0] == a[0];
      assert (a + b)[1..] == a[1..] + b;
      DialledAppend(a[1..], b);
      var h := if a[0].Dial? && a[0].ok then [a[0].addr] else [];
      assert h + (Dialled(a[1..]) + Dialled(b)) == h + Dialled(a[1..]) + Dialled(b);
    }
  }

  lemma DialledOne(e: Effect)
    ensures Dialled([e]) == if e.Dial? && e.ok then [e.addr] else []
  {
    assert [e][1..] == [];
  }

  lemma DialledCons(e: Effect, es: seq<Effect>)
    ensures Dialled([e] + es) == Dialled([e]) + Dialled(es)
  {
    DialledAppend([e], es);
  }

  /** A turn closes nothing itself, records every destination it dialled, and never ends as a failed read. */
  predicate WellFormed(o: Outcome)
  {
    CloseFree(o.effects) && Dialled(o.effects) == o.dialled && o.stop != Some(ReadFailed)
  }

  lemma PerformShape(action: Action, inc: Incoming)
    ensures WellFormed(Perform(action, inc))
  {
    var es := Perform(action, inc).effects;
    if |es| == 1 {
      DialledOne(es[0]);
    } else if |es| == 2 {
      ShapeTwo(es[0], es[1]);
    } else {
      ShapeThree(es[0], es[1], es[2]);
    }
  }

  lemma ShapeTwo(e0: Effect, e1: Effect)
    ensures Dialled([e0, e1]) == Dialled([e0]) + Dialled([e1])
  {
    assert [e0, e1] == [e0] + [e1];
    DialledCons(e0, [e1]);
  }

  lemma ShapeThree(e0: Effect, e1: Effect, e2: Effect)
    ensures Dialled([e0, e1, e2]) == Dialled([e0]) + Dialled([e1]) + Dialled([e2])
  {
    assert [e0, e1, e2] == [e0] + [e1, e2];
    DialledCons(e0, [e1, e2]);
    ShapeTwo(e1, e2);
  }

  lemma StepsWellFormed(nets: seq<Prefix>, remote: string, ins: seq<Incoming>)
    ensures forall j | 0 <= j < |ins| :: WellFormed(Steps(nets, remote, ins)[j])
  {
    forall j | 0 <= j < |ins| ensures WellFormed(Steps(nets, remote, ins)[j]) {
      PerformShape(Route(nets, remote, ins[j].req), ins[j]);
    }
  }

  /** A refused remote gets the 403 text to its first request, no dial, and the connection closed. */
  lemma RejectedSession(nets: seq<Prefix>, remote: string, ins: seq<Incoming>)
    requires Check(nets, remote) != Accepted && ins != []
    ensures Session(nets, remote, ins) ==
      Transcript([Write(ins[0].req.proto + " 403\r\n\r\nI don't like you, " + remote + "\r\n\r\n"), CloseClient], Rejected)
  {
    var o := Steps(nets, remote, ins)[0];
    assert o == Outcome([Write(Forbidden(ins[0].req.proto, remote))], [], Some(Rejected));
  }

  /** No destination is ever dialled on a connection from a remote outside the allowlist. */
  lemma DialsOnlyWhenAllowed(nets: seq<Prefix>, remote: string, ins: seq<Incoming>)
    ensures (exists i | 0 <= i < |Session(nets, remote, ins).effects| :: Session(nets, remote, ins).effects[i].Dial?)
      ==> Check(nets, remote) == Accepted
  {
    if Check(nets, remote) != Accepted && ins != [] {
      RejectedSession(nets, remote, ins);
    }
  }

  lemma {:induction false} RunStops(os: seq<Outcome>, open: seq<string>, i: nat)
    requires i < |os| && os[i].stop.Some?
    ensures Run(os, open) == Run(os[..i + 1], open)
  {
    assert os[..i + 1][0] == os[0];
    if os[0].stop.None? {
      assert os[..i + 1][1..] == os[1..][..i];
      RunStops(os[1..], open + os[0].dialled, i - 1);
    }
  }

  /**
   * Once a request ends the session (refused, health check, 404, or any
   * CONNECT whatever its outcome), nothing after it is read or influences the session.
   */
  lemma NothingReadAfterStop(nets: seq<Prefix>, remote: string, ins: seq<Incoming>, i: nat)
    requires i < |ins| && Step(nets, remote, ins[i]).stop.Some?
    ensures Session(nets, remote, ins) == Session(nets, remote, ins[..i + 1])
  {
    var os := Steps(nets, remote, ins);
    RunStops(os, [], i);
    assert os[..i + 1] == Steps(nets, remote, ins[..i + 1]);
  }

  lemma {:induction false} RunEnd(os: seq<Outcome>, open: seq<string>)
    requires forall j | 0 <= j < |os| :: os[j].stop != Some(ReadFailed)
    ensures Run(os, open).end == ReadFailed <==> forall j | 0 <= j < |os| :: os[j].stop.None?
  {
    if os != [] && os[0].stop.None? {
      RunEnd(os[1..], open + os[0].dialled);
      assert forall j | 0 <= j < |os[1..]| :: os[1..][j] == os[j + 1];
    }
  }

  /** A session lasts until the reads fail exactly when every request in it was forwarded. */
  lemma EndsOnlyByReadIffAllForwarded(nets: seq<Prefix>, remote: string, ins: seq<Incoming>)
    ensures Session(nets, remote, ins).end == ReadFailed <==>
      forall j | 0 <= j < |ins| :: Route(nets, remote, ins[j].req).Forward?
  {
    var os := Steps(nets, remote, ins);
    StepsWellFormed(nets, remote, ins);
    RunEnd(os, []);
    forall j | 0 <= j < |ins| ensures os[j].stop.None? <==> Route(nets, remote, ins[j].req).Forward? {
      OnlyForwardContinues(nets, remote, ins[j]);
    }
  }

  /** What a session does before its deferred closes: every turn up to the one that stops it. */
  function Activity(os: seq<Outcome>): seq<Effect>
  {
    if os == [] then []
    else if os[0].stop.Some? then os[0].effects
    else os[0].effects + Activity(os[1..])
  }

  lemma {:induction false} RunEffects(os: seq<Outcome>, open: seq<string>)
    requires forall j | 0 <= j < |os| :: WellFormed(os[j])
    ensures CloseFree(Activity(os))
    ensures Run(os, open).effects == Activity(os) + (Closes(open + Dialled(Activity(os))) + [CloseClient])
  {
    if os == [] {
      assert open + Dialled([]) == open;
    } else if os[0].stop.Some? {
      assert WellFormed(os[0]);
    } else {
      var o := os[0];
      assert WellFormed(o);
      var open' := open + o.dialled;
      assert forall j | 0 <= j < |os[1..]| :: os[1..][j] == os[j + 1];
      RunEffects(os[1..], open');
      var act := Activity(os[1..]);
      DialledAppend(o.effects, act);
      AppendAssoc(open, o.dialled, Dialled(act));
      ConcatAssoc(o.effects, act, Closes(open' + Dialled(act)) + [CloseClient]);
      CloseFreeAppend(o.effects, act);
    }
  }

  lemma CloseFreeAppend(a: seq<Effect>, b: seq<Effect>)
    requires CloseFree(a) && CloseFree(b)
    ensures CloseFree(a + b)
  {
  }

  lemma AppendAssoc(a: seq<string>, b: seq<string>, c: seq<string>)
    ensures a + b + c == a + (b + c)
  {
  }

  /**
   * The deferred closes: every destination dialled during a session is
   * closed exactly once, after everything else, last dialled first, and the
   * connection from the CDN is closed last of all.
   */
  lemma ClosedAtEnd(nets: seq<Prefix>, remote: string, ins: seq<Incoming>)
    ensures var t := Session(nets, remote, ins).effects;
      exists k | 0 <= k <= |t| :: CloseFree(t[..k]) && t[k..] == Closes(Dialled(t[..k])) + [CloseClient]
  {
    var os := Steps(nets, remote, ins);
    StepsWellFormed(nets, remote, ins);
    RunEffects(os, []);
    var act := Activity(os);
    var t := Session(nets, remote, ins).effects;
    assert [] + Dialled(act) == Dialled(act);
    var k := |act|;
    assert t[..k] == act;
    assert t[k..] == Closes(Dialled(act)) + [CloseClient];
  }

  /** Connections from the local end of the CDN list (127.0.0.0/24) are never refused. */
  lemma LocalhostNeverRefused(n: Octet, port: string, r: Request)
    requires ':' !in port && '[' !in port && ']' !in port
    ensures !Route(FastlyNets, JoinHostPort(FormatV4(127, 0, 0, n), port), r).Reject?
  {
    LocalhostAccepted(n, port);
  }
}
