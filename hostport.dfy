/**
 * Host/port splitting and joining, following the rules of Go's
 * `net.SplitHostPort` and `net.JoinHostPort`.
 */
module HostPort {
  import opened Wrappers
  import opened Text

  /** Why an address could not be split into host and port. */
  datatype SplitError =
    | MissingPort
    | TooManyColons
    | MissingCloseBracket
    | UnexpectedOpenBracket
    | UnexpectedCloseBracket

  /** `host:port` or `[host]:port` back into its two parts. */
  function SplitHostPort(hostport: string): (r: Result<(string, string), SplitError>)
    ensures ':' !in hostport ==> r == Err(MissingPort)
    ensures r.Ok? ==> ':' !in r.value.1 && '[' !in r.value.0 && ']' !in r.value.0
    ensures r.Ok? && ':' in r.value.0 ==> hostport == "[" + r.value.0 + "]" + ":" + r.value.1
    ensures r.Ok? && ':' !in r.value.0 ==>
              hostport == r.value.0 + ":" + r.value.1 || hostport == "[" + r.value.0 + "]" + ":" + r.value.1
  {
    // the port starts after the last colon
    var i := LastIndexOf(hostport, ':');
    if i < 0 then Err(MissingPort)
    else if hostport[0] == '[' then
      // the first ']' must come just before the last ':'
      var end := IndexOf(hostport, ']');
      if end < 0 then Err(MissingCloseBracket)
      else if end + 1 == |hostport| then Err(MissingPort)
      else if end + 1 != i then
        (if hostport[end + 1] == ':' then Err(TooManyColons) else Err(MissingPort))
      else if '[' in hostport[1..] then Err(UnexpectedOpenBracket)
      else if ']' in hostport[end + 1..] then Err(UnexpectedCloseBracket)
      else
        BracketedShape(hostport, end);
        Ok((hostport[1..end], hostport[i + 1..]))
    else
      var host, port := hostport[..i], hostport[i + 1..];
      if ':' in host then Err(TooManyColons)
      else if '[' in hostport then Err(UnexpectedOpenBracket)
      else if ']' in hostport then Err(UnexpectedCloseBracket)
      else
        PlainShape(hostport, i);
        Ok((host, port))
  }

  lemma BracketedShape(hp: string, end: nat)
    requires 0 < end && end + 1 < |hp| && hp[0] == '[' && hp[end] == ']' && hp[end + 1] == ':'
    requires '[' !in hp[1..] && ']' !in hp[..end] && ':' !in hp[end + 2..]
    ensures hp == "[" + hp[1..end] + "]" + ":" + hp[end + 2..]
    ensures '[' !in hp[1..end] && ']' !in hp[1..end] && ':' !in hp[end + 2..]
  {
    assert hp == [hp[0]] + hp[1..end] + [hp[end]] + [hp[end + 1]] + hp[end + 2..];
    assert hp[1..end] == hp[1..][..end - 1];
    assert hp[1..end] == hp[..end][1..];
  }

  lemma PlainShape(hp: string, i: nat)
    requires i < |hp| && hp[i] == ':'
    ensures hp == hp[..i] + ":" + hp[i + 1..]
  {
    assert hp == hp[..i] + [hp[i]] + hp[i + 1..];
  }

  /**
   * `host:port`, bracketing a host that contains a colon (an IPv6 literal).
   * Splitting undoes joining whenever neither part carries a bracket and the
   * port has no colon.
   */
  function JoinHostPort(host: string, port: string): (r: string)
    ensures '[' !in host && ']' !in host && ':' !in port && '[' !in port && ']' !in port ==>
              SplitHostPort(r) == Ok((host, port))
    ensures ':' in host ==> r == "[" + host + "]" + ":" + port
    ensures ':' !in host ==> r == host + ":" + port
  {
    SplitJoinEither(host, port);
    if ':' in host then "[" + host + "]" + ":" + port else host + ":" + port
  }

  lemma SplitJoinEither(host: string, port: string)
    ensures '[' !in host && ']' !in host && ':' !in port && '[' !in port && ']' !in port ==>
      SplitHostPort(if ':' in host then "[" + host + "]" + ":" + port else host + ":" + port) == Ok((host, port))
  {
    if '[' !in host && ']' !in host && ':' !in port && '[' !in port && ']' !in port {
      if ':' in host { SplitJoinBracketed(host, port); } else { SplitJoinPlain(host, port); }
    }
  }

  lemma SplitJoinBracketed(host: string, port: string)
    requires ':' in host && '[' !in host && ']' !in host
    requires ':' !in port && '[' !in port && ']' !in port
    ensures SplitHostPort("[" + host + "]" + ":" + port) == Ok((host, port))
  {
    var hp := "[" + host + "]" + ":" + port;
    var n := |host|;
    BracketedLastColon(host, port);
    BracketedClose(host, port);
    BracketedRest(host, port);
    assert hp[0] == '[';
  }

  lemma BracketedLastColon(host: string, port: string)
    requires ':' !in port
    ensures LastIndexOf("[" + host + "]" + ":" + port, ':') == |host| + 2
  {
    LastIndexOfSuffix("[" + host + "]", ':', port);
  }

  lemma BracketedClose(host: string, port: string)
    requires ']' !in host
    ensures IndexOf("[" + host + "]" + ":" + port, ']') == |host| + 1
  {
    IndexOfBefore("[" + host, ']', ':', port);
  }

  lemma BracketedRest(host: string, port: string)
    requires '[' !in host && ']' !in port && '[' !in port
    ensures var hp := "[" + host + "]" + ":" + port;
      hp[|host| + 1] == ']' && hp[|host| + 2] == ':'
      && '[' !in hp[1..] && ']' !in hp[|host| + 2..]
      && hp[1..|host| + 1] == host && hp[|host| + 3..] == port
  {
    var hp := "[" + host + "]" + ":" + port;
    assert hp[1..] == host + [']', ':'] + port;
    assert hp[|host| + 2..] == [':'] + port;
  }

  lemma SplitJoinPlain(host: string, port: string)
    requires ':' !in host && '[' !in host && ']' !in host
    requires ':' !in port && '[' !in port && ']' !in port
    ensures SplitHostPort(host + ":" + port) == Ok((host, port))
  {
    var hp := host + ":" + port;
    assert hp == host + [':'] + port;
    LastIndexOfSuffix(host, ':', port);
    assert hp[..|host|] == host;
    assert hp[|host| + 1..] == port;
    assert hp[0] == if |host| > 0 then host[0] else ':';
  }
}
