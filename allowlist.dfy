/**
 * The server's accept list: the networks Fastly's edge servers connect from,
 * parsed once at start-up, and the check applied to each connection's remote
 * address.
 */
module Allowlist {
  import opened Wrappers
  import opened Text
  import opened HostPort
  import opened IPAddr

  /** One entry of the accept list: the address `a.b.c.d` and the prefix length `len`. */
  type Entry = (Octet, Octet, Octet, Octet, PrefixLen)

  /** The accept list of the server, entry by entry: localhost and Fastly's public ranges. */
  const FastlyTable: seq<Entry> := [
    (127, 0, 0, 0, 24),  // localhost
    (23, 235, 32, 0, 20),
    (43, 249, 72, 0, 22),
    (103, 244, 50, 0, 24),
    (103, 245, 222, 0, 23),
    (103, 245, 224, 0, 24),
    (104, 156, 80, 0, 20),
    (140, 248, 64, 0, 18),
    (140, 248, 128, 0, 17),
    (146, 75, 0, 0, 17),
    (151, 101, 0, 0, 16),
    (157, 52, 64, 0, 18),
    (167, 82, 0, 0, 17),
    (167, 82, 128, 0, 20),
    (167, 82, 160, 0, 20),
    (167, 82, 224, 0, 20),
    (172, 111, 64, 0, 18),
    (185, 31, 16, 0, 22),
    (199, 27, 72, 0, 21),
    (199, 232, 0, 0, 16)
  ]

  /** The entries as the texts `a.b.c.d/len` the server parses at start-up. */
  const FastlyCidrs: seq<string> :=
    seq(|FastlyTable|, i requires 0 <= i < |FastlyTable| =>
      FormatCIDR(FastlyTable[i].0, FastlyTable[i].1, FastlyTable[i].2, FastlyTable[i].3, FastlyTable[i].4))

  /** The first entry is written `127.0.0.0/24`. */
  lemma LocalhostText()
    ensures FastlyCidrs[0] == "127.0.0.0/24"
  {
  }

  /**
   * What start-up makes of a list of CIDR texts: every network, in order, or
   * the first text that does not parse (on which the server panics).
   */
  function Networks(specs: seq<string>): (r: Result<seq<Prefix>, string>)
    ensures r.Ok? ==> |r.value| == |specs|
    ensures r.Err? ==> r.error in specs && ParseCIDR(r.error).Err?
  {
    if specs == [] then Ok([])
    else match ParseCIDR(specs[0])
      case Err(_) => Err(specs[0])
      case Ok(p) =>
        match Networks(specs[1..])
        case Ok(ps) => Ok([p] + ps)
        case Err(e) => Err(e)
  }

  /** Start-up succeeds exactly when every text parses. */
  lemma {:induction false} NetworksOk(specs: seq<string>)
    ensures Networks(specs).Ok? <==> forall i | 0 <= i < |specs| :: ParseCIDR(specs[i]).Ok?
  {
    if specs != [] {
      NetworksOk(specs[1..]);
      assert forall i | 1 <= i < |specs| :: specs[i] == specs[1..][i - 1];
    }
  }

  /**
   * On success there is one network per text, in order: the i-th network is
   * what the i-th text denotes, with its host bits cleared.
   */
  lemma {:induction false} NetworksValues(specs: seq<string>)
    requires Networks(specs).Ok?
    ensures |Networks(specs).value| == |specs|
    ensures forall i | 0 <= i < |specs| ::
              ParseCIDR(specs[i]).Ok? && Networks(specs).value[i] == ParseCIDR(specs[i]).value
    ensures forall i | 0 <= i < |specs| :: Canonical(Networks(specs).value[i])
  {
    if specs != [] {
      NetworksValues(specs[1..]);
    }
  }

  /** On failure the error names the first text that does not parse. */
  lemma {:induction false} NetworksFirstError(specs: seq<string>, i: nat)
    requires i < |specs| && ParseCIDR(specs[i]).Err?
    requires forall j | 0 <= j < i :: ParseCIDR(specs[j]).Ok?
    ensures Networks(specs) == Err(specs[i])
  {
    if i > 0 {
      NetworksFirstError(specs[1..], i - 1);
    }
  }

  lemma NetworksAllParsed(specs: seq<string>, ps: seq<Prefix>)
    requires |ps| == |specs|
    requires forall j | 0 <= j < |specs| :: ParseCIDR(specs[j]) == Ok(ps[j])
    ensures Networks(specs) == Ok(ps)
  {
    NetworksOk(specs);
    NetworksValues(specs);
    assert Networks(specs).value == ps;
  }

  /** `getNetworks`: parse every text into a slot of a fresh array, panicking on the first bad one. */
  method GetNetworks(specs: seq<string>) returns (r: Result<seq<Prefix>, string>)
    ensures r == Networks(specs)
  {
    var out := new Prefix[|specs|](_ => Prefix(0, 0));
    for i := 0 to |specs|
      invariant forall j | 0 <= j < i :: ParseCIDR(specs[j]) == Ok(out[j])
    {
      var p := ParseCIDR(specs[i]);
      if p.Err? {
        NetworksFirstError(specs, i);
        return Err(specs[i]);
      }
      ghost var done := out[..i];
      out[i] := p.value;
      assert out[..i] == done;
    }
    NetworksAllParsed(specs, out[..]);
    return Ok(out[..]);
  }

  /** The network an accept-list entry denotes. */
  function EntryPrefix(e: Entry): Prefix
  {
    Prefix(Masked(FromOctets(e.0, e.1, e.2, e.3), e.4), e.4)
  }

  /** `fastlyNetworks`: the networks the server checks against, one per entry. */
  const FastlyNets: seq<Prefix> :=
    seq(|FastlyTable|, i requires 0 <= i < |FastlyTable| => EntryPrefix(FastlyTable[i]))

  /** Start-up on the server's own list never panics, and yields each entry's network in order. */
  lemma FastlyNetworks()
    ensures Networks(FastlyCidrs) == Ok(FastlyNets)
  {
    forall i | 0 <= i < |FastlyTable|
      ensures ParseCIDR(FastlyCidrs[i]) == Ok(EntryPrefix(FastlyTable[i]))
    {
      var e := FastlyTable[i];
      ParseFormatCIDR(e.0, e.1, e.2, e.3, e.4);
    }
    NetworksAllParsed(FastlyCidrs, FastlyNets);
  }

  // ------------------------------------------------------------ the check

  /** Why `checkAddr` refused an address, or that it accepted it. */
  datatype Verdict =
    | Accepted
    | NoHostPort(error: SplitError)   // the address did not split into host and port
    | NotAnIP(host: string)           // the host part is not an IP address
    | NotListed(host: string)         // the IP address is in none of the networks

  /** Some network of the list contains the address. */
  predicate Listed(nets: seq<Prefix>, ip: IP)
  {
    exists i | 0 <= i < |nets| :: Contains(nets[i], ip)
  }

  /**
   * What `checkAddr` decides about a remote address `host:port`. A failed
   * split is reported as such, and every other refusal names the host part.
   */
  function Check(nets: seq<Prefix>, addr: string): (v: Verdict)
    ensures v.NoHostPort? <==> SplitHostPort(addr).Err?
    ensures v.NotAnIP? || v.NotListed? ==> SplitHostPort(addr).Ok? && v.host == SplitHostPort(addr).value.0
  {
    match SplitHostPort(addr)
    case Err(e) => NoHostPort(e)
    case Ok((host, _)) =>
      match ParseIP(host)
      case None => NotAnIP(host)
      case Some(ip) => if Listed(nets, ip) then Accepted else NotListed(host)
  }

  /** `checkAddr`: split, parse, then scan the networks in order and stop at the first match. */
  method CheckAddr(nets: seq<Prefix>, addr: string) returns (v: Verdict)
    ensures v == Check(nets, addr)
  {
    var split := SplitHostPort(addr);
    if split.Err? {
      return NoHostPort(split.error);
    }
    var host := split.value.0;
    var ip := ParseIP(host);
    if ip.None? {
      return NotAnIP(host);
    }
    var found := Scan(nets, ip.value);
    v := if found then Accepted else NotListed(host);
  }

  /** The loop of `checkAddr` over the networks, returning on the first that contains `ip`. */
  method Scan(nets: seq<Prefix>, ip: IP) returns (found: bool)
    ensures found == Listed(nets, ip)
  {
    for i := 0 to |nets|
      invariant forall j | 0 <= j < i :: !Contains(nets[j], ip)
    {
      if Contains(nets[i], ip) {
        return true;
      }
    }
    return false;
  }

  /**
   * The check fails closed: an address is accepted exactly when it splits,
   * its host part is an IP literal, and some network contains that IP; a
   * failed split or a host that is not an IP is reported as such.
   */
  lemma AcceptedIff(nets: seq<Prefix>, addr: string)
    ensures Check(nets, addr) == Accepted <==>
      SplitHostPort(addr).Ok? && ParseIP(SplitHostPort(addr).value.0).Some?
      && Listed(nets, ParseIP(SplitHostPort(addr).value.0).value)
    ensures SplitHostPort(addr).Err? ==> Check(nets, addr) == NoHostPort(SplitHostPort(addr).error)
    ensures SplitHostPort(addr).Ok? && ParseIP(SplitHostPort(addr).value.0).None? ==>
      Check(nets, addr) == NotAnIP(SplitHostPort(addr).value.0)
  {
  }

  /** The check fails closed: an empty list accepts nothing. */
  lemma EmptyListRejects(addr: string)
    ensures Check([], addr) != Accepted
  {
  }

  /** Only the set of networks matters, not their order or repetition. */
  lemma CheckSetOnly(n1: seq<Prefix>, n2: seq<Prefix>, addr: string)
    requires forall p :: p in n1 <==> p in n2
    ensures Check(n1, addr) == Check(n2, addr)
  {
    forall ip | true
      ensures Listed(n1, ip) == Listed(n2, ip)
    {
      ListedSubset(n1, n2, ip);
      ListedSubset(n2, n1, ip);
    }
  }

  /** A longer list accepts at least what a shorter one does. */
  lemma ListedSubset(n1: seq<Prefix>, n2: seq<Prefix>, ip: IP)
    requires forall p :: p in n1 ==> p in n2
    ensures Listed(n1, ip) ==> Listed(n2, ip)
  {
    if Listed(n1, ip) {
      var i :| 0 <= i < |n1| && Contains(n1[i], ip);
      assert n1[i] in n2;
      var j :| 0 <= j < |n2| && n2[j] == n1[i];
    }
  }

  /** An IPv6 address that is not IPv4-mapped is never accepted. */
  lemma PlainIPv6Rejected(nets: seq<Prefix>, addr: string, host: string, port: string)
    requires SplitHostPort(addr) == Ok((host, port))
    requires ParseIP(host).Some? && To4(ParseIP(host).value).None?
    ensures Check(nets, addr) == NotListed(host)
  {
  }

  /** The verdict on an address whose host part is an IP address. */
  lemma CheckParsed(nets: seq<Prefix>, addr: string, host: string, port: string, ip: IP)
    requires SplitHostPort(addr) == Ok((host, port)) && ParseIP(host) == Some(ip)
    ensures Check(nets, addr) == if Listed(nets, ip) then Accepted else NotListed(host)
  {
  }

  /** A list accepts an IPv4 address exactly when it accepts its IPv4-mapped form. */
  lemma ListedMapped(nets: seq<Prefix>, x: Addr)
    ensures Listed(nets, Mapped(x)) == Listed(nets, V4(x))
  {
    forall i | 0 <= i < |nets|
      ensures Contains(nets[i], Mapped(x)) == Contains(nets[i], V4(x))
    {
      MappedContainedAlike(nets[i], x);
    }
  }

  /** `[::ffff:a.b.c.d]:port` gets the same verdict as `a.b.c.d:port`. */
  lemma MappedAddressAlike(nets: seq<Prefix>, t: string, port: string)
    requires ParseIPv4(t).Some?
    requires ':' !in port && '[' !in port && ']' !in port
    ensures Check(nets, JoinHostPort("::ffff:" + t, port)) == Accepted
        <==> Check(nets, JoinHostPort(t, port)) == Accepted
  {
    var x := ParseIPv4(t).value;
    CheckMappedText(nets, t, port);
    CheckDottedText(nets, t, port);
    ListedMapped(nets, x);
  }

  /** The verdict for an IP literal joined with a port, through the split round trip. */
  lemma CheckJoined(nets: seq<Prefix>, host: string, port: string, ip: IP)
    requires '[' !in host && ']' !in host
    requires ':' !in port && '[' !in port && ']' !in port
    requires ParseIP(host) == Some(ip)
    ensures Check(nets, JoinHostPort(host, port)) == Accepted <==> Listed(nets, ip)
  {
    CheckParsed(nets, JoinHostPort(host, port), host, port, ip);
  }

  lemma CheckMappedText(nets: seq<Prefix>, t: string, port: string)
    requires ParseIPv4(t).Some?
    requires ':' !in port && '[' !in port && ']' !in port
    ensures Check(nets, JoinHostPort("::ffff:" + t, port)) == Accepted
        <==> Listed(nets, Mapped(ParseIPv4(t).value))
  {
    var x := ParseIPv4(t).value;
    ParseMappedText(t, x);
    MappedTextUnbracketed(t);
    CheckJoined(nets, "::ffff:" + t, port, Mapped(x));
  }

  lemma MappedTextUnbracketed(t: string)
    requires ParseIPv4(t).Some?
    ensures '[' !in "::ffff:" + t && ']' !in "::ffff:" + t
  {
  }

  lemma CheckDottedText(nets: seq<Prefix>, t: string, port: string)
    requires ParseIPv4(t).Some?
    requires ':' !in port && '[' !in port && ']' !in port
    ensures Check(nets, JoinHostPort(t, port)) == Accepted <==> Listed(nets, V4(ParseIPv4(t).value))
  {
    DotFirst(t);
    CheckJoined(nets, t, port, V4(ParseIPv4(t).value));
  }

  /** The localhost entry accepts every `127.0.0.n`, on any port. */
  lemma LocalhostAccepted(n: Octet, port: string)
    requires ':' !in port && '[' !in port && ']' !in port
    ensures Check(FastlyNets, JoinHostPort(FormatV4(127, 0, 0, n), port)) == Accepted
  {
    var t := FormatV4(127, 0, 0, n);
    ParseFormatV4(127, 0, 0, n);
    ParseFormatIP(127, 0, 0, n);
    LocalhostContains(n);
    assert FastlyNets[0] == EntryPrefix((127, 0, 0, 0, 24));
    CheckParsed(FastlyNets, JoinHostPort(t, port), t, port, V4(FromOctets(127, 0, 0, n)));
  }

  lemma LocalhostContains(n: Octet)
    ensures Contains(EntryPrefix((127, 0, 0, 0, 24)), V4(FromOctets(127, 0, 0, n)))
  {
    assert Shl(8323072, 8) == FromOctets(127, 0, 0, 0);
    assert Shl(1, 8) == 256;
    ShrShlPlus(8323072, n, 8);
    ShrShlPlus(8323072, 0, 8);
    ContainsTopBits(EntryPrefix((127, 0, 0, 0, 24)), FromOctets(127, 0, 0, n));
  }
}
