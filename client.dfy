/**
 * The local end of the tunnel (client/main.go): it takes one request from
 * the browser, disguises it as a plain `GET` to the fronted host, sends it
 * over TLS to the front domain and then relays bytes both ways.
 */
module Client {
  import opened Wrappers
  import opened Headers
  import opened HostPort
  import opened Http
  import opened Relay

  /** The domain the TLS connection is made to (and named in SNI). */
  const FrontDomain := "www.fastly.com"

  /** The Host the disguised request claims; the CDN routes on it to the back end. */
  const FrontedHost := "fronted.site"

  /** `url.Parse("//www.fastly.com:443")`. */
  const FrontUrl := Url("", "www.fastly.com:443", "")

  /** The front's address, fixed for the whole client; `RemoteAddrText` shows it is `net.JoinHostPort(frontDomain, "443")`. */
  const RemoteAddr := "www.fastly.com:443"

  /** The `ServerName` of the TLS configuration. */
  const ServerName := "www.fastly.com"

  /**
   * The disguise step of `handle`: strip the port from Host, record the
   * original method and host in `X-Method` and `X-Host`, and make the request a
   * `GET` to `FrontedHost` with no RequestURI and the front URL. It fails, and
   * changes nothing, when Host cannot be split into host and port.
   */
  function Disguise(r: Request): (d: Result<Request, SplitError>)
    ensures d.Err? <==> SplitHostPort(r.host).Err?
    ensures d.Err? ==> d.error == SplitHostPort(r.host).error
  {
    match SplitHostPort(r.host)
    case Err(e) => Err(e)
    case Ok((dstHost, _)) =>
      Ok(Request(
        proto := r.proto,
        verb := "GET",
        host := FrontedHost,
        requestURI := "",
        url := FrontUrl,
        header := Add(Add(r.header, "X-Method", r.verb), "X-Host", dstHost)))
  }

  /**
   * The same step as `handle` performs it, on the request object: each
   * assignment in turn, and nothing touched when the split fails.
   */
  method DisguiseInPlace(req: HttpRequest) returns (err: Option<SplitError>)
    modifies req
    ensures err.None? <==> Disguise(old(req.Value())).Ok?
    ensures err.None? ==> req.Value() == Disguise(old(req.Value())).value
    ensures err.Some? ==> req.Value() == old(req.Value()) && err.value == Disguise(old(req.Value())).error
  {
    var split := SplitHostPort(req.host);
    if split.Err? {
      return Some(split.error);
    }
    var dstHost := split.value.0;
    DisguiseValue(req.Value(), dstHost);
    req.AddHeader("X-Method", req.verb);
    req.verb := "GET";
    req.AddHeader("X-Host", dstHost);
    req.host := FrontedHost;
    req.requestURI := "";
    req.url := FrontUrl;
    return None;
  }

  lemma DisguiseValue(r: Request, dstHost: string)
    requires SplitHostPort(r.host).Ok? && SplitHostPort(r.host).value.0 == dstHost
    ensures Disguise(r) == Ok(r.(verb := "GET", host := FrontedHost, requestURI := "", url := FrontUrl,
                                 header := Add(Add(r.header, "X-Method", r.verb), "X-Host", dstHost)))
  {
  }

  // ------------------------------------------------------------ session

  /** What the environment does during one client session. */
  datatype Env = Env(
    dialOk: bool,           // tls.Dial to the front domain succeeds
    sendOk: bool,           // writing the disguised request succeeds
    bodyCopy: CopyError,    // copying the response body to the browser (calling goroutine)
    localCopy: CopyError)   // copying the browser's bytes to the front (spawned goroutine)

  /** The observable steps of a session, in order. */
  datatype Effect =
    | Dial(addr: string, serverName: string, ok: bool)
    | Send(req: Request, ok: bool)
    | Reply(text: string)
    | Relayed(result: CopyError)
    | CloseBody
    | CloseRemote
    | CloseLocal

  /**
   * A client session for request `r`. Deferred closes run last-in first-out:
   * the response body when the relay returns, then the TLS connection (once
   * dialled), then the browser's connection, which is always closed last.
   */
  function Session(r: Request, env: Env): (t: seq<Effect>)
    ensures |t| > 0 && t[|t| - 1] == CloseLocal
  {
    Trace(Disguise(r), env)
  }

  /** The session once the disguise step has had outcome `dr`. */
  function Trace(dr: Result<Request, SplitError>, env: Env): (t: seq<Effect>)
    ensures |t| > 0 && t[|t| - 1] == CloseLocal
  {
    match dr
    case Err(_) => [CloseLocal]
    case Ok(d) =>
      if !env.dialOk then [Dial(RemoteAddr, ServerName, false), CloseLocal]
      else if !env.sendOk then [Dial(RemoteAddr, ServerName, true), Send(d, false), CloseRemote, CloseLocal]
      else
        [Dial(RemoteAddr, ServerName, true), Send(d, true), Reply(Established(d.proto)),
         Relayed(Classify(env.bodyCopy, env.localCopy)), CloseBody, CloseRemote, CloseLocal]
  }

  /**
   * `handle` once the browser's request has been read: disguise it in place,
   * dial the front, forward the request, answer the browser and relay.
   */
  method Handle(req: HttpRequest, env: Env) returns (trace: seq<Effect>)
    modifies req
    ensures trace == Session(old(req.Value()), env)
    ensures Disguise(old(req.Value())).Ok? ==> req.Value() == Disguise(old(req.Value())).value
    ensures Disguise(old(req.Value())).Err? ==> req.Value() == old(req.Value())
  {
    var err := DisguiseInPlace(req);
    if err.Some? {
      return [CloseLocal];
    }
    var d := req.Value();
    if !env.dialOk {
      return [Dial(RemoteAddr, ServerName, false), CloseLocal];
    }
    if !env.sendOk {
      return [Dial(RemoteAddr, ServerName, true), Send(d, false), CloseRemote, CloseLocal];
    }
    var reply := Established(req.proto);
    var result := Classify(env.bodyCopy, env.localCopy);
    return [Dial(RemoteAddr, ServerName, true), Send(d, true), Reply(reply), Relayed(result), CloseBody, CloseRemote, CloseLocal];
  }

  // ------------------------------------------------------------ lemmas

  /** The front's address is the front domain joined with port 443, and splits back into them. */
  lemma RemoteAddrText()
    ensures JoinHostPort(FrontDomain, "443") == RemoteAddr
    ensures SplitHostPort(RemoteAddr) == Ok((FrontDomain, "443"))
  {
    FrontDomainPlain();
    assert JoinHostPort(FrontDomain, "443") == FrontDomain + ":" + "443";
  }

  lemma FrontDomainPlain()
    ensures ':' !in FrontDomain && '[' !in FrontDomain && ']' !in FrontDomain
  {
  }

  /**
   * After the disguise: the method is `GET`, Host is `fronted.site`, the
   * RequestURI is empty, the URL is the front URL, the proto is kept, and the
   * header is the original one followed by `X-Method: <method>` and
   * `X-Host: <host without port>`.
   */
  lemma DisguiseFields(r: Request)
    requires SplitHostPort(r.host).Ok?
    ensures var d := Disguise(r).value;
      d.verb == "GET" && d.host == "fronted.site" && d.requestURI == ""
      && d.url == Url("", "www.fastly.com:443", "") && d.proto == r.proto
      && d.header == r.header + [("X-Method", r.verb), ("X-Host", SplitHostPort(r.host).value.0)]
  {
    XMethodCanonical();
    XHostCanonical();
  }

  /** The two carrier headers go after every existing header, which keep their order. */
  lemma DisguiseKeepsHeaders(r: Request)
    requires SplitHostPort(r.host).Ok?
    ensures var h := Disguise(r).value.header;
      |h| == |r.header| + 2 && h[..|r.header|] == r.header
  {
    DisguiseFields(r);
    var h := Disguise(r).value.header;
    assert h[..|r.header|] == r.header;
  }

  /** A Host with no splittable port aborts the session before any dial. */
  lemma UnsplittableHostAborts(r: Request, env: Env)
    requires SplitHostPort(r.host).Err?
    ensures Session(r, env) == [CloseLocal]
  {
  }

  /** A request without a port in Host never leaves the machine. */
  lemma PortlessHostAborts(r: Request, env: Env)
    requires ':' !in r.host
    ensures Session(r, env) == [CloseLocal]
  {
  }

  /**
   * Whatever the real destination, the only connection the client opens is
   * to `www.fastly.com:443` with server name `www.fastly.com`.
   */
  lemma DialsOnlyTheFront(r: Request, env: Env)
    ensures forall i | 0 <= i < |Session(r, env)| && Session(r, env)[i].Dial? ::
      Session(r, env)[i].addr == "www.fastly.com:443" && Session(r, env)[i].serverName == "www.fastly.com"
  {
    TraceDials(Disguise(r), env);
  }

  lemma TraceDials(dr: Result<Request, SplitError>, env: Env)
    ensures forall i | 0 <= i < |Trace(dr, env)| && Trace(dr, env)[i].Dial? ::
      Trace(dr, env)[i].addr == RemoteAddr && Trace(dr, env)[i].serverName == ServerName
  {
    var t := Trace(dr, env);
    forall i | 0 <= i < |t| && t[i].Dial?
      ensures t[i].addr == RemoteAddr && t[i].serverName == ServerName
    {
      if dr.Ok? && env.dialOk {
        assert i == 0;
      }
    }
  }

  /** The browser is only ever told `<proto> 200 Connection established`, with its own proto. */
  lemma RepliesEstablished(r: Request, env: Env)
    ensures forall i | 0 <= i < |Session(r, env)| && Session(r, env)[i].Reply? ::
      Session(r, env)[i].text == r.proto + " 200 Connection established\r\n\r\n"
  {
    TraceReplies(Disguise(r), env);
    if SplitHostPort(r.host).Ok? {
      DisguiseFields(r);
    }
  }

  lemma TraceReplies(dr: Result<Request, SplitError>, env: Env)
    ensures forall i | 0 <= i < |Trace(dr, env)| && Trace(dr, env)[i].Reply? ::
      dr.Ok? && Trace(dr, env)[i].text == Established(dr.value.proto)
  {
    var t := Trace(dr, env);
    forall i | 0 <= i < |t| && t[i].Reply?
      ensures dr.Ok? && t[i].text == Established(dr.value.proto)
    {
      if dr.Ok? && env.dialOk && env.sendOk {
        assert i == 2;
      }
    }
  }

  /** What goes out on the wire is exactly the disguised request. */
  lemma SendsDisguised(r: Request, env: Env)
    ensures forall i | 0 <= i < |Session(r, env)| && Session(r, env)[i].Send? ::
      Disguise(r).Ok? && Session(r, env)[i].req == Disguise(r).value
  {
    TraceSends(Disguise(r), env);
  }

  lemma TraceSends(dr: Result<Request, SplitError>, env: Env)
    ensures forall i | 0 <= i < |Trace(dr, env)| && Trace(dr, env)[i].Send? ::
      dr.Ok? && Trace(dr, env)[i].req == dr.value
  {
    var t := Trace(dr, env);
    forall i | 0 <= i < |t| && t[i].Send?
      ensures dr.Ok? && t[i].req == dr.value
    {
      if dr.Ok? && env.dialOk {
        assert i == 1;
      }
    }
  }

  /**
   * A session whose disguise, dial and send all succeed is the whole tunnel:
   * the dial to the front, the disguised request, the established reply with
   * the browser's own proto, the relay rule's verdict on the two copies, and
   * then the deferred closes of the body, the TLS connection and the browser's
   * connection, in that order.
   */
  lemma RelayVerdict(r: Request, env: Env)
    requires Disguise(r).Ok? && env.dialOk && env.sendOk
    ensures Session(r, env) ==
      [Dial(RemoteAddr, ServerName, true), Send(Disguise(r).value, true),
       Reply(r.proto + " 200 Connection established\r\n\r\n"),
       Relayed(Classify(env.bodyCopy, env.localCopy)), CloseBody, CloseRemote, CloseLocal]
  {
    DisguiseFields(r);
  }

  /** A failed dial to the front ends the session: only the browser's connection is closed. */
  lemma DialFailedSession(r: Request, env: Env)
    requires Disguise(r).Ok? && !env.dialOk
    ensures Session(r, env) == [Dial(RemoteAddr, ServerName, false), CloseLocal]
  {
  }

  /**
   * A failed send of the disguised request ends the session with no reply
   * and no relay: the TLS connection, then the browser's connection, is closed.
   */
  lemma SendFailedSession(r: Request, env: Env)
    requires Disguise(r).Ok? && env.dialOk && !env.sendOk
    ensures Session(r, env) ==
      [Dial(RemoteAddr, ServerName, true), Send(Disguise(r).value, false), CloseRemote, CloseLocal]
  {
  }
}
