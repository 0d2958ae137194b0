# fronted: a Dafny model of the domain-fronting tunnel

`fronted` is a two-part HTTP tunnel that hides its destination behind a CDN.
The **client** (`client/main.go`) runs on localhost. It takes a browser's proxy
request and disguises it:

- the real method goes into an `X-Method` header and the real host (without
  its port) into `X-Host`;
- the request becomes a `GET` for `fronted.site`;
- it is sent over TLS to `www.fastly.com:443`.

The **server** (`server/proxy.go`) sits behind the CDN. For each request on a
connection, it:

- checks that the connection comes from one of the CDN's edge networks;
- answers the CDN's health check;
- recovers the destination from `X-Host`/`X-Method`;
- tunnels a `CONNECT` to port 443, or forwards any other request to port 80.

Both ends finish with the same relay rule, which classifies the errors of
their two concurrent copies.

The model covers the deterministic, security-relevant part of both programs.

| file | module | what it holds |
|---|---|---|
| `wrappers.dfy` | `Wrappers` | `Option`, `Result` |
| `text.dfy` | `Text` | decimal and hexadecimal digits, `IndexOf`, `Split`/`Join` |
| `hostport.dfy` | `HostPort` | `net.SplitHostPort`, `net.JoinHostPort` and their round trip |
| `ipaddr.dfy` | `IPAddr` | IP addresses, `To4`, IPv4 prefixes, `IPNet.Contains`, `ParseIP`, `ParseCIDR` |
| `allowlist.dfy` | `Allowlist` | `getNetworks` (an array filled in a loop) and `checkAddr` (a scan with early return) |
| `headers.dfy` | `Headers` | `http.Header` as a sequence of pairs with canonical keys; `Get`, `Add`, `CanonicalMIMEHeaderKey` |
| `http.dfy` | `Http` | the request record, and the mutable `HttpRequest` object both ends rewrite |
| `relay.dfy` | `Relay` | the error classification at the end of both `relay` functions |
| `client.dfy` | `Client` | the disguise, done in place, and one client session as a trace of effects |
| `server.dfy` | `Server` | the routing decision as a pure `Action`, and the per-connection loop as a method producing a transcript |
| `fronting.dfy` | `Fronting` | the two ends together: the disguise / undisguise round trip and where a disguised request is routed |

How the imperative parts are modelled:

- The parts that mutate state are methods proved against specification
  functions:
  - `Allowlist.GetNetworks` against `Networks`;
  - `Allowlist.CheckAddr` and `Allowlist.Scan` against `Check` and `Listed`;
  - `Client.DisguiseInPlace` against `Disguise`;
  - `Server.UndisguiseInPlace` against `Undisguise`;
  - `Server.Handle` against `Session`.

  The properties are then proved as lemmas about those functions.
- Everything the network decides is a parameter:
  - a failed read;
  - the outcome of a dial, a write or a copy;
  - the two relay errors.

- A server session is given the requests read off the connection. Each
  `Server.Incoming` record carries the network's answers for that request. The
  next read is taken to fail once the given requests run out.
- A session's result is a `Server.Transcript`. It lists every write, dial, send,
  copy and deferred close in order, and the reason the session ended.

## Model

| member | source | states |
|---|---|---|
| `HostPort.SplitHostPort` | server/proxy.go:61-64 | no colon gives `MissingPort`; a port never contains a colon; the input is exactly `host:port`, or `[host]:port` (always bracketed when the host has a colon) |
| `HostPort.JoinHostPort` | server/proxy.go:192 | splitting the joined address gives back its host and port whenever neither has a bracket and the port has no colon; a host with a colon is the bracketed form |
| `IPAddr.To4` | server/proxy.go:70 | a dotted-quad address converts to itself |
| `IPAddr.To4OnlyMapped` | server/proxy.go:70 | the only IPv6 addresses with an IPv4 form are the `::ffff:a.b.c.d` ones |
| `IPAddr.To4Mapped` | server/proxy.go:70 | the IPv4 form of `::ffff:a` is `a` |
| `IPAddr.Masked` | server/proxy.go:51 | the masked address keeps the top `len` bits of the address, its low `32 - len` bits are zero (shifting them out and back changes nothing), and it is never larger |
| `IPAddr.Contains` | server/proxy.go:70 | an IPv4 network only ever contains an address that has an IPv4 form |
| `IPAddr.ContainsTopBits` | server/proxy.go:70 | an IPv4 address is in a network iff its leading `len` bits equal the network's |
| `IPAddr.MappedContainedAlike` | server/proxy.go:70 | a dotted quad and its IPv4-mapped IPv6 form are contained in exactly the same networks |
| `IPAddr.MaskCanonical` | server/proxy.go:51 | a masked network has no host bits set |
| `IPAddr.CanonicalContainsNet` | server/proxy.go:51 | a canonical network contains its own network address |
| `IPAddr.ParseIPv4` | server/proxy.go:65 | a parsed dotted quad contains a dot and no colon or bracket |
| `IPAddr.ParseIPv6` | server/proxy.go:65 | an IPv6 parse always gives a 128-bit address, and only a text containing a colon parses |
| `IPAddr.ParseFormatV4` | server/proxy.go:65 | parsing the dotted-quad text of four octets gives back the address they spell |
| `IPAddr.ParseIP` | server/proxy.go:65 | an IPv4 result is what the dotted-quad parser gives; an IPv6 result is what the IPv6 parser gives |
| `IPAddr.ParseFormatIP` | server/proxy.go:65 | a dotted quad is parsed as that IPv4 address |
| `IPAddr.ParseMappedText` | server/proxy.go:65 | `::ffff:a.b.c.d` parses to the IPv4-mapped address of `a.b.c.d` |
| `IPAddr.DotFirst` | server/proxy.go:65 | a valid dotted quad is always read as IPv4 |
| `IPAddr.ColonFirst` | server/proxy.go:65 | a text starting with a colon can only be IPv6 |
| `IPAddr.ParseCIDR` | server/proxy.go:51 | a parsed network is canonical (host bits masked off); a text without `/` is rejected |
| `IPAddr.PrefixOf` | server/proxy.go:51 | a non-address is rejected; on success the length is the decimal after the slash, and the network contains the written address |
| `IPAddr.ParseFormatCIDR` | server/proxy.go:51 | `a.b.c.d/len` parses to the network of `a.b.c.d` with its host bits cleared |
| `Allowlist.LocalhostText` | server/proxy.go:28 | the first accept-list entry is the text `127.0.0.0/24` |
| `Allowlist.NetworksOk` | server/proxy.go:49-57 | start-up succeeds iff every text parses |
| `Allowlist.NetworksValues` | server/proxy.go:49-57 | on success there is one network per text, in order, each the network its text denotes and each canonical |
| `Allowlist.NetworksFirstError` | server/proxy.go:51-54 | start-up fails, naming the first text that does not parse |
| `Allowlist.Networks` | server/proxy.go:49-57 | on success one network per text; on failure the text named is one of the texts and the one that does not parse |
| `Allowlist.GetNetworks` | server/proxy.go:26-58 | the array-filling loop computes exactly the start-up result |
| `Allowlist.FastlyNetworks` | server/proxy.go:24-58 | the server's own list parses without a panic, entry by entry and in order |
| `Allowlist.Check` | server/proxy.go:60-75 | the split error is reported iff the address does not split; the not-an-IP and not-listed errors name the split host |
| `Allowlist.CheckAddr` | server/proxy.go:60-75 | the check, step by step, gives the verdict of the specification `Check` |
| `Allowlist.Scan` | server/proxy.go:69-74 | the scan with an early return finds a match iff some network contains the address |
| `Allowlist.AcceptedIff` | server/proxy.go:60-75 | fails closed: an address is accepted iff it splits, its host is an IP literal, and some network contains that IP; an unsplittable address and a non-IP host each get their own error |
| `Allowlist.EmptyListRejects` | server/proxy.go:69-74 | an empty list accepts nothing |
| `Allowlist.CheckSetOnly` | server/proxy.go:69-74 | the verdict depends only on the set of networks, not on their order or repetition |
| `Allowlist.ListedSubset` | server/proxy.go:69-74 | adding networks never rejects an address that was listed before |
| `Allowlist.PlainIPv6Rejected` | server/proxy.go:65-74 | an IPv6 address that is not IPv4-mapped is never accepted |
| `Allowlist.CheckParsed` | server/proxy.go:65-74 | for an IP host, the verdict is accepted iff some network contains it |
| `Allowlist.MappedAddressAlike` | server/proxy.go:61-74 | `[::ffff:a.b.c.d]:port` gets the same verdict as `a.b.c.d:port` |
| `Allowlist.LocalhostAccepted` | server/proxy.go:28 | every `127.0.0.n`, on any port, passes the server's list |
| `Headers.CanonicalKey` | server/proxy.go:156 | the canonical key has the key's length and differs from it only in letter case |
| `Headers.CanonicalRule` | server/proxy.go:156 | for a key of token characters, the first character is upper-cased, every character after a `-` is upper-cased, and every other one is lower-cased |
| `Headers.Get` | server/proxy.go:156 | a non-empty result is the value of some field whose key is the canonical form of the key asked for |
| `Headers.Add` | client/main.go:79-81 | the added key's values gain the value at the end, every other key's values are unchanged, and the existing fields stay as a prefix followed by one field with the canonical key |
| `Headers.GetIsFirstValue` | server/proxy.go:156 | `Get` returns the key's first value, or `""` when the key has none |
| `Headers.ValuesIffKey` | server/proxy.go:156 | a key has values iff some field carries it |
| `Headers.AddAppendsValue` | client/main.go:79-81 | `Add` appends its value to the key's values and leaves every other key's values alone |
| `Headers.GetAfterAdd` | client/main.go:79-81 | `Add` never replaces: if the key was present, `Get` is unchanged; otherwise it returns the added value |
| `Headers.GetOtherAfterAdd` | client/main.go:79-81 | adding under one key does not change `Get` for a different key |
| `Headers.CanonicalIdempotent` | client/main.go:79 | canonicalising a canonical key changes nothing |
| `Headers.GetIgnoresCase` | server/proxy.go:156 | `Get` with keys differing only in letter case returns the same value |
| `Headers.HasKeyAdd` | client/main.go:79-81 | after `Add`, a key is present iff it was present before or it is the added key |
| `Headers.XHostCanonical` | server/proxy.go:156 | the key `X-Host` is its own canonical form |
| `Headers.XMethodCanonical` | server/proxy.go:166 | the key `X-Method` is its own canonical form |
| `Headers.CarrierKeysDiffer` | client/main.go:79-81 | the two carrier keys are different header keys |
| `Http.Established` | client/main.go:141 | the established reply begins with the request's proto; the full literal is stated where it is sent, by `Server.TunnelStep` and `Client.RelayVerdict` |
| `Http.HttpRequest.constructor` | client/main.go:63 | a new request object holds exactly the given request |
| `Http.HttpRequest.AddHeader` | client/main.go:79 | only the header changes, into the header with the field added |
| `Relay.Classify` | server/proxy.go:258-264 | never reports a deadline; reports no error iff neither copy failed; any error reported is one of the two copies' errors |
| `Relay.ClassifyIsFirstFailure` | server/proxy.go:258-264 | the relay reports the earliest failure of its copies, in order, the calling goroutine's first |
| `Relay.DeadlineIsSuccess` | server/proxy.go:258-264 | a deadline expiry on either copy counts as a clean finish |
| `Relay.FirstFailureWins` | client/main.go:170-176 | when both copies fail, the first copy's error is reported |
| `Relay.SuccessSymmetric` | client/main.go:170-176 | whether the relay succeeds does not depend on which copy ran where |
| `Relay.FirstFailureIsEarliest` | server/proxy.go:258-264 | the earliest failure is a failure in the list with no failure before it; there is none iff nothing failed |
| `Client.Disguise` | client/main.go:73-95 | the disguise fails iff the Host does not split into host and port, and fails with that error |
| `Client.DisguiseInPlace` | client/main.go:73-95 | the in-place rewrite leaves the request as the specification `Disguise` says; on a split error it leaves the request untouched |
| `Client.Session` | client/main.go:51-160 | a session always ends by closing the browser's connection |
| `Client.Trace` | client/main.go:73-160 | whether or not the disguise succeeded, the rest of the session ends by closing the browser's connection |
| `Client.TraceDials` | client/main.go:111-121 | every dial in a session after the disguise goes to the front address with the front's server name |
| `Client.TraceSends` | client/main.go:125-131 | a send happens only after a successful disguise, and it carries the disguised request |
| `Client.TraceReplies` | client/main.go:141 | a reply happens only after a successful disguise, and it is the established reply with the disguised request's proto |
| `Client.Handle` | client/main.go:51-160 | the session's trace of dials, sends, replies, relay results and deferred closes (the response body's included) is `Session` of the original request; the request object ends up disguised, or untouched when the Host does not split |
| `Client.RemoteAddrText` | client/main.go:59 | the front address `www.fastly.com:443` is the front domain joined with port 443, and splits back into them |
| `Client.DisguiseFields` | client/main.go:79-95 | method `GET`, Host `fronted.site`, RequestURI empty, URL `//www.fastly.com:443`, proto kept, and the header is the original one plus `X-Method: <method>`, `X-Host: <host without port>` |
| `Client.DisguiseKeepsHeaders` | client/main.go:79-81 | the existing header fields keep their order, and only the two carriers follow them |
| `Client.UnsplittableHostAborts` | client/main.go:73-78 | a Host that does not split ends the session with no dial and no send |
| `Client.PortlessHostAborts` | client/main.go:73-78 | a Host without a port never leaves the machine |
| `Client.DialsOnlyTheFront` | client/main.go:111-121 | every dial goes to `www.fastly.com:443` with server name `www.fastly.com`, whatever the destination |
| `Client.RepliesEstablished` | client/main.go:141 | the browser is only ever sent `<its proto> 200 Connection established`; that it is sent on every successful dial and send is `Client.RelayVerdict` |
| `Client.SendsDisguised` | client/main.go:126 | what is sent to the front is exactly the disguised request |
| `Client.RelayVerdict` | client/main.go:115-160 | a session whose disguise, dial and send succeed is exactly: the dial to the front, the disguised request, `<proto> 200 Connection established` to the browser, the relay rule's verdict, then the closes of the body, the TLS connection and the browser's connection |
| `Client.DialFailedSession` | client/main.go:115-121 | a failed dial to the front ends the session with nothing sent, no reply and no relay: only the browser's connection is closed |
| `Client.SendFailedSession` | client/main.go:122-131 | a failed send of the disguised request ends the session with no reply and no relay: the TLS connection, then the browser's connection, is closed |
| `Server.Undisguise` | server/proxy.go:155-169 | a destination exists iff `X-Host` is non-empty; its Host is the `X-Host` value and its header is the request's |
| `Server.UndisguiseInPlace` | server/proxy.go:155-169 | the in-place rewrite leaves the request as `Undisguise` says, and untouched when there is no `X-Host` |
| `Server.UndisguiseFields` | server/proxy.go:155-169 | a destination exists iff `X-Host` is non-empty; Host becomes `X-Host`; the method becomes `X-Method` only when that is non-empty; every other field is kept |
| `Server.Route` | server/proxy.go:132-222 | a refusal iff the remote is not accepted; a tunnel or forward only for an accepted request that is not the health check, carrying the undisguised request |
| `Server.Destination` | server/proxy.go:155-222 | the 404 is chosen iff there is no `X-Host` destination |
| `Server.Target` | server/proxy.go:189-222 | a tunnel iff the method is `CONNECT`, otherwise a forward, passing the request on; the address splits back into the host and port 443 or 80 |
| `Server.Perform` | server/proxy.go:189-241 | the session goes on iff the action is a forward; the only destination ever dialled is the action's own address (what each kind of turn writes and sends is stated by `Server.TunnelStep`, `Server.ForwardStep`, `Server.HealthCheckStep` and `Server.NotFoundStep`) |
| `Server.Session` | server/proxy.go:114-243 | a session always ends by closing the CDN's connection |
| `Server.Closes` | server/proxy.go:199-229 | one deferred close per destination dialled, the last dialled closed first |
| `Server.Run` | server/proxy.go:123-242 | however the remaining turns go, the rest of the session ends by closing the CDN's connection |
| `Server.Serve` | server/proxy.go:132-241 | one turn of the loop, done step by step, does what `Step` (the routing decision, then carrying it out) says |
| `Server.Dispatch` | server/proxy.go:155-169 | an accepted, non-health-check request is undisguised and then answered 404 or proxied, as `Destination` says; the request object ends up undisguised, or untouched without `X-Host` |
| `Server.Proxy` | server/proxy.go:189-241 | the dial and the tunnel or forward are as `Target` says |
| `Server.Handle` | server/proxy.go:114-243 | the loop's transcript and end reason are `Session` of the requests read |
| `Server.RejectIffNotListed` | server/proxy.go:132-137 | the allowlist comes first: a request is refused iff the remote is not accepted, with exactly `<proto> 403\r\n\r\nI don't like you, <remote>\r\n\r\n` |
| `Server.RejectedSession` | server/proxy.go:132-137 | a refused remote's session is that one write followed by the close, with no dial |
| `Server.HealthCheckIff` | server/proxy.go:144-153 | the health check is answered iff the remote is accepted and Host, path and method all match, with exactly `<proto> 200\r\n\r\ncontent-length: 0\r\n\r\n` |
| `Server.NotFoundIff` | server/proxy.go:156-165 | an accepted, non-health-check request is answered `<proto> 404 Not found\r\n\r\n` iff its `X-Host` is empty or missing |
| `Server.DialTargets` | server/proxy.go:189-223 | a recovered CONNECT is tunnelled to `<X-Host>:443` and any other method is forwarded to `<X-Host>:80`, each iff routing gets that far |
| `Server.TunnelStep` | server/proxy.go:189-212 | a routed CONNECT dials its address; a failed dial ends the session; otherwise exactly `<proto> 200 Connection established\r\n\r\n` is written, and when that succeeds the relay verdict is recorded and ends the session |
| `Server.HealthCheckStep` | server/proxy.go:144-153 | a health-check turn is exactly the write of `<proto> 200\r\n\r\ncontent-length: 0\r\n\r\n`, with no dial, and ends the session |
| `Server.NotFoundStep` | server/proxy.go:158-165 | a turn without a destination is exactly the write of `<proto> 404 Not found\r\n\r\n`, with no dial, and ends the session |
| `Server.ForwardStep` | server/proxy.go:215-241 | a forward dials `<X-Host>:80`; once connected it sends the undisguised request, and once sent it copies the response back; only a successful dial is recorded, and the session goes on in every case |
| `Server.OnlyForwardContinues` | server/proxy.go:189-241 | a turn keeps the session going iff its request was forwarded; refusal, health check, 404 and every CONNECT outcome end it |
| `Server.PerformShape` | server/proxy.go:193-229 | a turn closes nothing itself and records every destination it dialled |
| `Server.DialsOnlyWhenAllowed` | server/proxy.go:132-137 | no destination is dialled on a connection from a remote outside the allowlist |
| `Server.NothingReadAfterStop` | server/proxy.go:123-213 | once a request ends the session, the requests after it have no influence on it |
| `Server.EndsOnlyByReadIffAllForwarded` | server/proxy.go:123-242 | a session ends by a failed read iff every request in it was forwarded |
| `Server.RunEffects` | server/proxy.go:115-229 | a session is its turns' activity followed by the deferred closes of every destination dialled, then the connection's close |
| `Server.ClosedAtEnd` | server/proxy.go:115-229 | every destination dialled is closed exactly once, after everything else, last dialled first, and the CDN's connection is closed last |
| `Server.LocalhostNeverRefused` | server/proxy.go:28 | a request from any `127.0.0.n` is never refused by the server's own list |
| `Fronting.CarriersReadBack` | client/main.go:79-81 | with no carrier headers of its own, the disguised request's `X-Host` and `X-Method` read back as the host without port and the original method |
| `Fronting.RoundTrip` | client/main.go:73-82 | undisguising a disguised request gives back the original method, the host without its port, and the proto |
| `Fronting.DisguisedRoute` | server/proxy.go:144-222 | through an allowed edge, a disguised CONNECT is tunnelled to `<host>:443` and anything else forwarded to `<host>:80`; it is never mistaken for the health check |
| `Fronting.EmptyHostNotFound` | server/proxy.go:156-165 | a Host with an empty host part (`:8080`) passes the client and gets the 404 from the server |
| `Fronting.PresentXHostWins` | client/main.go:79-81 | an `X-Host` the browser already sent comes first and decides the destination |
| `Fronting.EmptyMethodBecomesGet` | server/proxy.go:166-169 | a request with an empty method reaches the destination as `GET` |

## Left out

- The concurrent copying in both `relay` functions is left out: the goroutines, the channel, `io.Copy` and the 5-second read deadlines. Only the final classification of the two copy errors is kept. The copy that runs on the calling goroutine counts as the first.
- The handshake read deadlines are left out. They are timing only.
- TLS is left out: listening, dialling, certificate loading and the `ServerName` check. So are flag parsing and the accept loops in both `main` functions. The client's dial is an input, which records the address and server name it uses.
- HTTP wire parsing and serialisation are left out (`http.ReadRequest`, `http.ReadResponse`, `req.Write`). A request is the abstract `Http.Request` record. A failed `ReadRequest` is the point where the given requests run out. `http.ReadRequest` never yields an empty method, since a method must be a non-empty token, so the condition `r.verb != ""` of `Fronting.RoundTrip` and `Fronting.DisguisedRoute` always holds for a request that was read; `Fronting.EmptyMethodBecomesGet` concerns requests built otherwise.
- DNS and dialling are left out. Each dial's success is an input.
- Logging is left out, and so is the client's `req.Write(os.Stderr)` dump.
- The client's TLS key-log file is left out: the file opened per destination, and its close.
- The client's unchecked read errors are left out: the request read and the response read. The model starts from a read request, and takes the response read to succeed. Go would dereference a nil value in either failure case, and no behaviour is claimed for it.
- The client's `url.Parse` of a constant is modelled as its result, `Client.FrontUrl`. That parse cannot fail.
- The results of the server's 403, 404 and health-check writes are left out. They are ignored by the code, and the session ends either way.
- The remote address string is one parameter per connection. It is used both for the allowlist check and in the 403 text, as the code reads it twice from the same connection.
- The Go standard library is not part of this model's sources. `SplitHostPort`, `JoinHostPort`, `ParseIP`, `ParseCIDR`, `To4`, `IPNet.Contains`, `Header.Get`/`Add` and `CanonicalMIMEHeaderKey` are modelled from Go's documented behaviour. Their rows cite the call sites that use them.
- IPAddr.ParseCIDR: only IPv4 networks are modelled, because the accept list holds only IPv4 entries. An IPv6 network text is refused with `IPv6Prefix` instead of being parsed.
- Addresses are numbers below 2^32, and masks use shifts written as repeated halving and doubling. They are not 32-bit bit-vectors. The arithmetic is the same.
- `Allowlist.FastlyCidrs` is built by formatting the numeric table `Allowlist.FastlyTable`. Its texts are exactly the strings of the accept list, and `Allowlist.LocalhostText` shows the first.
