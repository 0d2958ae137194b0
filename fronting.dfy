/**
 * The two ends together: what the back end makes of a request the client
 * has disguised. The client hides the real method and host in `X-Method` and
 * `X-Host`; the server's undisguise step must recover them.
 */
module Fronting {
  import opened Headers
  import opened HostPort
  import opened Http
  import opened Allowlist
  import Client
  import Server

  /** The disguised request's carrier headers, read back with `Get`. */
  lemma CarriersReadBack(r: Request)
    requires SplitHostPort(r.host).Ok?
    requires !HasKey(r.header, "X-Host") && !HasKey(r.header, "X-Method")
    ensures var d := Client.Disguise(r).value;
      Get(d.header, "X-Host") == SplitHostPort(r.host).value.0 && Get(d.header, "X-Method") == r.verb
  {
    var h1 := Add(r.header, "X-Method", r.verb);
    XHostCanonical();
    XMethodCanonical();
    CarrierKeysDiffer();
    HasKeyAdd(r.header, "X-Method", r.verb, "X-Host");
    GetAfterAdd(h1, "X-Host", SplitHostPort(r.host).value.0);
    GetOtherAfterAdd(h1, "X-Host", SplitHostPort(r.host).value.0, "X-Method");
    GetAfterAdd(r.header, "X-Method", r.verb);
  }

  /**
   * The round trip: with no `X-Host` or `X-Method` of its own, a non-empty
   * host part and a non-empty method, undisguising the disguised request gives
   * back the original method and the host without its port.
   */
  lemma RoundTrip(r: Request)
    requires SplitHostPort(r.host).Ok? && SplitHostPort(r.host).value.0 != ""
    requires r.verb != ""
    requires !HasKey(r.header, "X-Host") && !HasKey(r.header, "X-Method")
    ensures var u := Server.Undisguise(Client.Disguise(r).value);
      u.Some? && u.value.host == SplitHostPort(r.host).value.0 && u.value.verb == r.verb
      && u.value.proto == r.proto
  {
    CarriersReadBack(r);
  }

  /**
   * Through an allowed edge, a disguised CONNECT is tunnelled to the real
   * host on port 443 and anything else is forwarded to it on port 80; the
   * disguise never looks like the health check.
   */
  lemma DisguisedRoute(nets: seq<IPAddr.Prefix>, remote: string, r: Request)
    requires Check(nets, remote) == Accepted
    requires SplitHostPort(r.host).Ok? && SplitHostPort(r.host).value.0 != ""
    requires r.verb != ""
    requires !HasKey(r.header, "X-Host") && !HasKey(r.header, "X-Method")
    ensures var a := Server.Route(nets, remote, Client.Disguise(r).value);
      var h := SplitHostPort(r.host).value.0;
      (r.verb == "CONNECT" ==> a.Tunnel? && a.addr == JoinHostPort(h, "443"))
      && (r.verb != "CONNECT" ==> a.Forward? && a.addr == JoinHostPort(h, "80"))
  {
    RoundTrip(r);
    Client.DisguiseFields(r);
    var d := Client.Disguise(r).value;
    assert !Server.IsHealthCheck(d) by {
      assert d.host != Server.HealthHost;
    }
    var u := Server.Undisguise(d).value;
    assert Server.Route(nets, remote, d) == Server.Target(u);
  }

  /** A Host with an empty host part (such as `:8080`) gets through the client and is answered 404. */
  lemma EmptyHostNotFound(nets: seq<IPAddr.Prefix>, remote: string, r: Request)
    requires Check(nets, remote) == Accepted
    requires SplitHostPort(r.host).Ok? && SplitHostPort(r.host).value.0 == ""
    requires !HasKey(r.header, "X-Host") && !HasKey(r.header, "X-Method")
    ensures Server.Route(nets, remote, Client.Disguise(r).value).NotFound?
  {
    CarriersReadBack(r);
    Client.DisguiseFields(r);
    assert Client.Disguise(r).value.host != Server.HealthHost;
  }

  /**
   * `Add` never replaces, so an `X-Host` the browser already sent comes
   * first and decides the destination instead of the request's own Host.
   */
  lemma PresentXHostWins(r: Request)
    requires SplitHostPort(r.host).Ok? && HasKey(r.header, "X-Host") && Get(r.header, "X-Host") != ""
    ensures var u := Server.Undisguise(Client.Disguise(r).value);
      u.Some? && u.value.host == Get(r.header, "X-Host")
  {
    var h1 := Add(r.header, "X-Method", r.verb);
    XHostCanonical();
    XMethodCanonical();
    CarrierKeysDiffer();
    HasKeyAdd(r.header, "X-Method", r.verb, "X-Host");
    GetAfterAdd(h1, "X-Host", SplitHostPort(r.host).value.0);
    GetOtherAfterAdd(r.header, "X-Method", r.verb, "X-Host");
  }

  /**
   * A request with an empty method reaches the destination as the disguise's
   * `GET`. `http.ReadRequest` never yields such a request, since a method must
   * be a non-empty token, so this is about requests built some other way; for
   * a read request the method is never empty.
   */
  lemma EmptyMethodBecomesGet(r: Request)
    requires SplitHostPort(r.host).Ok? && SplitHostPort(r.host).value.0 != "" && r.verb == ""
    requires !HasKey(r.header, "X-Host") && !HasKey(r.header, "X-Method")
    ensures var u := Server.Undisguise(Client.Disguise(r).value);
      u.Some? && u.value.verb == "GET"
  {
    CarriersReadBack(r);
    Client.DisguiseFields(r);
  }
}
