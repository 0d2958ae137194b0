/**
 * IP addresses, IPv4 network prefixes and their textual forms, following
 * Go's `net.ParseIP`, `net.ParseCIDR`, `IP.To4` and `IPNet.Contains`.
 */
module IPAddr {
  import opened Wrappers
  import opened Text

  /** An IPv4 address as the 32-bit number its four bytes spell (first byte most significant). */
  type Addr = n: nat | n < 0x1_0000_0000

  /** One 16-bit group of an IPv6 address. */
  type Group = n: nat | n < 0x1_0000

  /**
   * An IP address as its text was written: a dotted quad, or an IPv6 address
   * given by its eight 16-bit groups. Go stores both as 16 bytes; `To4`
   * recovers the IPv4 address from either form.
   */
  datatype IP = V4(addr: Addr) | V6(g0: Group, g1: Group, g2: Group, g3: Group,
                                    g4: Group, g5: Group, g6: Group, g7: Group)

  /** The IPv4-mapped IPv6 address `::ffff:a`. */
  function Mapped(a: Addr): IP { V6(0, 0, 0, 0, 0, 0xFFFF, a / 0x1_0000, a % 0x1_0000) }

  /** Go's `IP.To4`: the IPv4 address behind a dotted quad or an IPv4-mapped IPv6 address. */
  function To4(ip: IP): (r: Option<Addr>)
    ensures ip.V4? ==> r == Some(ip.addr)
  {
    match ip
    case V4(a) => Some(a)
    case V6(g0, g1, g2, g3, g4, g5, g6, g7) =>
      // bytes 0-9 zero and bytes 10-11 all ones
      if g0 == 0 && g1 == 0 && g2 == 0 && g3 == 0 && g4 == 0 && g5 == 0xFFFF
      then Some(g6 * 0x1_0000 + g7) else None
  }

  /** The only IPv6 addresses `To4` accepts are the IPv4-mapped ones. */
  lemma To4OnlyMapped(ip: IP)
    requires ip.V6? && To4(ip).Some?
    ensures ip == Mapped(To4(ip).value)
  {
  }

  /** `To4` undoes `Mapped`. */
  lemma To4Mapped(a: Addr)
    ensures To4(Mapped(a)) == Some(a)
  {
  }

  // ---------------------------------------------------------------- prefixes

  /** The length of an IPv4 prefix: the number of leading network bits. */
  type PrefixLen = n: nat | n <= 32

  /** An IPv4 network `net/len`, as `net.IPNet` holds it. */
  datatype Prefix = Prefix(net: Addr, len: PrefixLen)

  /** `a >> k`: `a` with its `k` lowest bits dropped. */
  function Shr(a: nat, k: nat): nat
  {
    if k == 0 then a else Shr(a / 2, k - 1)
  }

  /** `x << k`: `x` followed by `k` zero bits. */
  function Shl(x: nat, k: nat): nat
  {
    if k == 0 then x else 2 * Shl(x, k - 1)
  }

  /** Dropping the low bits and shifting back never grows a number. */
  lemma {:induction false} ShrShlBelow(a: nat, k: nat)
    ensures Shl(Shr(a, k), k) <= a
  {
    if k > 0 {
      ShrShlBelow(a / 2, k - 1);
      ShlSucc(Shr(a / 2, k - 1), k - 1);
    }
  }

  /** `x << (k+1)` is `(2x) << k`. */
  lemma {:induction false} ShlSucc(x: nat, k: nat)
    ensures Shl(x, k + 1) == Shl(2 * x, k)
  {
    if k > 0 {
      ShlSucc(x, k - 1);
    }
  }

  /** Shifting left then right gives the number back. */
  lemma {:induction false} ShlShr(x: nat, k: nat)
    ensures Shr(Shl(x, k), k) == x
  {
    if k > 0 {
      ShlShr(x, k - 1);
      ShrDouble(Shl(x, k - 1), k - 1);
    }
  }

  lemma ShrDouble(y: nat, k: nat)
    ensures Shr(2 * y, k + 1) == Shr(y, k)
  {
  }

  /** Dropping `k` low bits from `q << k` plus a `k`-bit number gives `q` back. */
  lemma {:induction false} ShrShlPlus(q: nat, r: nat, k: nat)
    requires r < Shl(1, k)
    ensures Shr(Shl(q, k) + r, k) == q
  {
    if k > 0 {
      ShrShlPlus(q, r / 2, k - 1);
    }
  }

  /** A left shift is one-to-one. */
  lemma {:induction false} ShlInjective(x: nat, y: nat, k: nat)
    requires Shl(x, k) == Shl(y, k)
    ensures x == y
  {
    if k > 0 {
      ShlInjective(x, y, k - 1);
    }
  }

  /**
   * `a & CIDRMask(len, 32)`: the leading `len` bits of a 32-bit number kept and
   * the other `32 - len` cleared. The result has the same top bits as `a`, and
   * shifting its low bits out and back in changes nothing: they are zero.
   */
  function Masked(a: Addr, len: PrefixLen): (m: Addr)
    ensures m <= a
    ensures Shr(m, 32 - len) == Shr(a, 32 - len)
    ensures Shl(Shr(m, 32 - len), 32 - len) == m
  {
    ShrShlBelow(a, 32 - len);
    ShlShr(Shr(a, 32 - len), 32 - len);
    Shl(Shr(a, 32 - len), 32 - len)
  }

  /** The leading `len` bits of `a`, as a number. */
  function TopBits(a: Addr, len: PrefixLen): nat
  {
    Shr(a, 32 - len)
  }

  /** A prefix whose host bits are all zero, as `ParseCIDR` produces it. */
  predicate Canonical(p: Prefix)
  {
    Masked(p.net, p.len) == p.net
  }

  /**
   * Go's `IPNet.Contains` for an IPv4 network: an IPv4-mapped IPv6 address is
   * first turned into its IPv4 address; any other IPv6 address has the wrong
   * length and never matches. A match means equal network bits.
   */
  function Contains(p: Prefix, ip: IP): (r: bool)
    ensures r ==> To4(ip).Some?
  {
    match To4(ip)
    case Some(a) => Masked(a, p.len) == Masked(p.net, p.len)
    case None => false
  }

  /** An IPv4 address is in a prefix exactly when its leading `len` bits are the network's. */
  lemma ContainsTopBits(p: Prefix, a: Addr)
    ensures Contains(p, V4(a)) <==> TopBits(a, p.len) == TopBits(p.net, p.len)
  {
    if Masked(a, p.len) == Masked(p.net, p.len) {
      ShlInjective(TopBits(a, p.len), TopBits(p.net, p.len), 32 - p.len);
    }
  }

  /** The dotted quad and the IPv4-mapped IPv6 form of one address are contained alike. */
  lemma MappedContainedAlike(p: Prefix, a: Addr)
    ensures Contains(p, Mapped(a)) == Contains(p, V4(a))
  {
    To4Mapped(a);
  }

  /** Clearing the host bits leaves a canonical prefix. */
  lemma MaskCanonical(a: Addr, len: PrefixLen)
    ensures Canonical(Prefix(Masked(a, len), len))
  {
    ShlShr(Shr(a, 32 - len), 32 - len);
  }

  /** The network address itself lies in a canonical prefix. */
  lemma CanonicalContainsNet(p: Prefix)
    requires Canonical(p)
    ensures Contains(p, V4(p.net))
  {
  }

  // ---------------------------------------------------------------- IPv4 text

  type Octet = n: nat | n < 256

  /** One decimal field of a dotted quad: digits, no leading zero, at most 255. */
  predicate ValidOctet(f: string)
  {
    0 < |f| && AllDigits(f) && (|f| == 1 || f[0] != '0') && DecimalValue(f) <= 255
  }

  /** The address whose four bytes are `a.b.c.d`. */
  function FromOctets(a: Octet, b: Octet, c: Octet, d: Octet): Addr
  {
    a * 0x100_0000 + b * 0x1_0000 + c * 0x100 + d
  }

  /** Go's `parseIPv4`: exactly four valid decimal fields separated by dots. */
  function ParseIPv4(s: string): (r: Option<Addr>)
    ensures r.Some? ==> '.' in s && ':' !in s && '[' !in s && ']' !in s
  {
    var f := Split(s, '.');
    if |f| == 4 && ValidOctet(f[0]) && ValidOctet(f[1]) && ValidOctet(f[2]) && ValidOctet(f[3])
    then
      assert s == f[0] + "." + Join(f[1..], '.');
      assert forall k | 0 <= k < 4 :: ':' !in f[k] && '[' !in f[k] && ']' !in f[k];
      assert Join(f[1..], '.') == f[1] + "." + Join(f[2..], '.');
      assert Join(f[2..], '.') == f[2] + "." + f[3];
      Some(FromOctets(DecimalValue(f[0]), DecimalValue(f[1]), DecimalValue(f[2]), DecimalValue(f[3])))
    else None
  }

  /** The dotted-quad text of an address, as `IP.String` writes it. */
  function FormatV4(a: Octet, b: Octet, c: Octet, d: Octet): string
  {
    DecimalString(a) + ['.'] + (DecimalString(b) + ['.'] + (DecimalString(c) + ['.'] + DecimalString(d)))
  }

  lemma OctetText(n: Octet)
    ensures ValidOctet(DecimalString(n)) && DecimalValue(DecimalString(n)) == n
    ensures '.' !in DecimalString(n) && ':' !in DecimalString(n) && '/' !in DecimalString(n)
  {
    DecimalRoundTrip(n);
  }

  /** Parsing the dotted quad of four octets gives back those octets. */
  lemma ParseFormatV4(a: Octet, b: Octet, c: Octet, d: Octet)
    ensures ParseIPv4(FormatV4(a, b, c, d)) == Some(FromOctets(a, b, c, d))
  {
    var sa, sb, sc, sd := DecimalString(a), DecimalString(b), DecimalString(c), DecimalString(d);
    OctetText(a); OctetText(b); OctetText(c); OctetText(d);
    SplitFour(sa, sb, sc, sd, '.');
  }

  // ---------------------------------------------------------------- IPv6 text

  /** One colon-separated field of an IPv6 address: one to four hex digits. */
  predicate ValidHexGroup(f: string)
  {
    0 < |f| <= 4 && AllHexDigits(f)
  }

  /** The value of a hex field. */
  function HexGroup(f: string): Group
    requires ValidHexGroup(f)
  {
    HexGroupBound(f);
    HexValue(f)
  }

  lemma {:induction false} HexGroupBound(f: string)
    requires |f| <= 4 && AllHexDigits(f)
    ensures HexValue(f) < 0x1_0000
    ensures |f| <= 3 ==> HexValue(f) < 0x1000
    ensures |f| <= 2 ==> HexValue(f) < 0x100
    ensures |f| <= 1 ==> HexValue(f) < 0x10
  {
    if f != [] {
      HexGroupBound(f[..|f| - 1]);
    }
  }

  /**
   * The 16-bit groups spelled by colon-separated fields. When `v4Tail`
   * holds, the last field may instead be a dotted quad, which spells two
   * groups (an embedded IPv4 address is only allowed at the end).
   */
  function Groups(fields: seq<string>, v4Tail: bool): (r: Option<seq<Group>>)
  {
    if fields == [] then Some([])
    else if |fields| == 1 && v4Tail && '.' in fields[0] then
      match ParseIPv4(fields[0])
      case Some(a) => Some([a / 0x1_0000, a % 0x1_0000])
      case None => None
    else if ValidHexGroup(fields[0]) then
      match Groups(fields[1..], v4Tail)
      case Some(g) => Some([HexGroup(fields[0])] + g)
      case None => None
    else None
  }

  /** A single field spells at most two groups. */
  lemma OneFieldGroups(f: string, v4Tail: bool)
    ensures Groups([f], v4Tail).None? || |Groups([f], v4Tail).value| <= 2
  {
    assert [f][1..] == [];
  }

  /** The groups of one side of `::` (an empty side spells no groups). */
  function GroupsOf(s: string, v4Tail: bool): Option<seq<Group>>
  {
    if s == [] then Some([]) else Groups(Split(s, ':'), v4Tail)
  }

  /** Position of the first `::` in `s`, or -1. */
  function EllipsisAt(s: string): (i: int)
    ensures -1 <= i
    ensures i >= 0 ==> i + 1 < |s| && s[i] == ':' && s[i + 1] == ':'
    ensures i == -1 ==> forall j | 0 <= j < |s| - 1 :: !(s[j] == ':' && s[j + 1] == ':')
  {
    if |s| < 2 then -1
    else if s[0] == ':' && s[1] == ':' then 0
    else
      var j := EllipsisAt(s[1..]);
      if j < 0 then -1 else j + 1
  }

  /** Packs eight 16-bit groups into an IPv6 address. */
  function Pack(g: seq<Group>): IP
    requires |g| == 8
  {
    V6(g[0], g[1], g[2], g[3], g[4], g[5], g[6], g[7])
  }

  /** The zero groups an ellipsis stands for. */
  function Zeros(n: nat): (z: seq<Group>)
    ensures |z| == n && forall i | 0 <= i < n :: z[i] == 0
  {
    if n == 0 then [] else Zeros(n - 1) + [0]
  }

  /**
   * Go's `parseIPv6`: eight groups, or fewer around a single `::` that
   * stands for at least one zero group; a trailing dotted quad counts as two
   * groups.
   */
  function ParseIPv6(s: string): (r: Option<IP>)
    ensures r.Some? ==> r.value.V6? && ':' in s
  {
    var e := EllipsisAt(s);
    if e < 0 then
      assert ':' !in s ==> GroupsOf(s, true).None? || |GroupsOf(s, true).value| <= 2 by {
        if ':' !in s && s != [] {
          SplitSingle(s, ':');
          OneFieldGroups(s, true);
        }
      }
      match GroupsOf(s, true)
      case Some(g) => if |g| == 8 then Some(Pack(g)) else None
      case None => None
    else
      match (GroupsOf(s[..e], false), GroupsOf(s[e + 2..], true))
      case (Some(l), Some(r)) =>
        if |l| + |r| <= 7 then Some(Pack(l + Zeros(8 - |l| - |r|) + r)) else None
      case _ => None
  }

  /**
   * Go's `net.ParseIP`: the first `.` or `:` decides between the two
   * syntaxes. A zone suffix (`%eth0`) makes either parser fail, as `ParseIP`
   * rejects zones.
   */
  function ParseIP(s: string): (r: Option<IP>)
    ensures r.Some? && r.value.V4? ==> ParseIPv4(s) == Some(r.value.addr)
    ensures r.Some? && r.value.V6? ==> ParseIPv6(s) == r
  {
    var dot, colon := IndexOf(s, '.'), IndexOf(s, ':');
    if dot >= 0 && (colon < 0 || dot < colon) then
      match ParseIPv4(s)
      case Some(a) => Some(V4(a))
      case None => None
    else if colon >= 0 then ParseIPv6(s)
    else None
  }

  lemma ParseFormatIP(a: Octet, b: Octet, c: Octet, d: Octet)
    ensures ParseIP(FormatV4(a, b, c, d)) == Some(V4(FromOctets(a, b, c, d)))
  {
    ParseFormatV4(a, b, c, d);
    var s := FormatV4(a, b, c, d);
    assert ':' !in s;
    assert s[|DecimalString(a)|] == '.';
  }

  lemma HexF()
    ensures AllHexDigits("f") && HexValue("f") == 0xF
  {
    assert "f"[..0] == "";
  }

  lemma HexFF()
    ensures AllHexDigits("ff") && HexValue("ff") == 0xFF
  {
    assert "ff"[..1] == "f";
    HexF();
  }

  lemma HexFFF()
    ensures AllHexDigits("fff") && HexValue("fff") == 0xFFF
  {
    assert "fff"[..2] == "ff";
    HexFF();
  }

  lemma HexFFFF()
    ensures ValidHexGroup("ffff") && HexGroup("ffff") == 0xFFFF
  {
    assert "ffff"[..3] == "fff";
    HexFFF();
  }

  /** The fields after `::` in `::ffff:t`, for a dotted quad `t`. */
  lemma MappedTailGroups(t: string, x: Addr)
    requires ParseIPv4(t) == Some(x)
    ensures var r := GroupsOf("ffff" + [':'] + t, true);
      r.Some? && |r.value| == 3
      && r.value[0] == 0xFFFF && r.value[1] == x / 0x1_0000 && r.value[2] == x % 0x1_0000
  {
    SplitCons("ffff", ':', t);
    SplitSingle(t, ':');
    HexFFFF();
    var f := Split("ffff" + [':'] + t, ':');
    assert |f| == 2 && f[0] == "ffff" && f[1] == t;
    TailV4(f[1..], x);
    GroupsCons(f, [x / 0x1_0000, x % 0x1_0000]);
  }

  lemma TailV4(fields: seq<string>, x: Addr)
    requires |fields| == 1 && ParseIPv4(fields[0]) == Some(x)
    ensures Groups(fields, true) == Some([x / 0x1_0000, x % 0x1_0000])
  {
  }

  lemma GroupsCons(fields: seq<string>, g: seq<Group>)
    requires |fields| >= 2 && ValidHexGroup(fields[0]) && Groups(fields[1..], true) == Some(g)
    ensures Groups(fields, true) == Some([HexGroup(fields[0])] + g)
  {
  }

  /** Eight groups of which the first five are the zeros `::` stands for. */
  lemma ExpandLeading(r: seq<Group>)
    requires |r| == 3
    ensures Pack([] + Zeros(5) + r) == V6(0, 0, 0, 0, 0, r[0], r[1], r[2])
  {
    var g := [] + Zeros(5) + r;
    assert g[5] == r[0] && g[6] == r[1] && g[7] == r[2];
  }

  /** A text that starts with `::` has its groups after the ellipsis padded with zeros in front. */
  lemma LeadingEllipsis(s: string, r: seq<Group>)
    requires |s| >= 2 && s[0] == ':' && s[1] == ':'
    requires GroupsOf(s[2..], true) == Some(r) && |r| <= 7
    ensures ParseIPv6(s) == Some(Pack([] + Zeros(8 - |r|) + r))
  {
    assert EllipsisAt(s) == 0;
    assert s[..0] == [];
  }

  /** `::ffff:a.b.c.d` parses to the IPv4-mapped IPv6 address of `a.b.c.d`. */
  lemma ParseMappedText(t: string, x: Addr)
    requires ParseIPv4(t) == Some(x)
    ensures ParseIP("::ffff:" + t) == Some(Mapped(x))
  {
    var s := "::ffff:" + t;
    assert s[0] == ':' && s[1] == ':';
    assert s[2..] == "ffff" + [':'] + t;
    MappedTailGroups(t, x);
    var r := GroupsOf(s[2..], true).value;
    LeadingEllipsis(s, r);
    ExpandLeading(r);
    ColonFirst(s);
  }

  /** A dotted quad is read as an IPv4 address. */
  lemma DotFirst(t: string)
    requires ParseIPv4(t).Some?
    ensures ParseIP(t) == Some(V4(ParseIPv4(t).value))
  {
  }

  /** A text that starts with a colon can only be an IPv6 address. */
  lemma ColonFirst(s: string)
    requires |s| > 0 && s[0] == ':'
    ensures ParseIP(s) == ParseIPv6(s)
  {
    assert IndexOf(s, ':') == 0;
  }

  // ---------------------------------------------------------------- CIDR text

  datatype CidrError = NoSlash | BadAddress | IPv6Prefix | BadLength

  /**
   * Go's `net.ParseCIDR` for an IPv4 address: the text is cut at its first
   * `/`; the part before must be an address, the part after a decimal number
   * (leading zeros allowed) of at most 32. The network has its host bits
   * masked off.
   */
  function ParseCIDR(s: string): (r: Result<Prefix, CidrError>)
    ensures r.Ok? ==> Canonical(r.value)
    ensures '/' !in s ==> r == Err(NoSlash)
  {
    var slash := IndexOf(s, '/');
    if slash < 0 then Err(NoSlash) else PrefixOf(s[..slash], s[slash + 1..])
  }

  /** The network that an address text and a length text denote. */
  function PrefixOf(addr: string, bits: string): (r: Result<Prefix, CidrError>)
    ensures ParseIP(addr).None? ==> r == Err(BadAddress)
    ensures r.Ok? ==> Canonical(r.value)
    ensures r.Ok? ==> bits != [] && AllDigits(bits) && r.value.len == DecimalValue(bits)
    ensures r.Ok? ==> ParseIP(addr).Some? && ParseIP(addr).value.V4?
                      && Contains(r.value, ParseIP(addr).value)
  {
    match ParseIP(addr)
    case None => Err(BadAddress)
    case Some(V6(_, _, _, _, _, _, _, _)) => Err(IPv6Prefix)
    case Some(V4(a)) =>
      if bits == [] || !AllDigits(bits) || DecimalValue(bits) > 32 then Err(BadLength)
      else
        var n: PrefixLen := DecimalValue(bits);
        MaskCanonical(a, n);
        Ok(Prefix(Masked(a, n), n))
  }

  lemma PrefixOfV4(addr: string, bits: string, a: Addr, n: PrefixLen)
    requires ParseIP(addr) == Some(V4(a))
    requires bits != [] && AllDigits(bits) && DecimalValue(bits) == n
    ensures PrefixOf(addr, bits) == Ok(Prefix(Masked(a, n), n))
  {
  }

  /** A text with exactly one leading slash-free part is cut after that part. */
  lemma CutAtSlash(addr: string, bits: string)
    requires '/' !in addr
    ensures ParseCIDR(addr + ['/'] + bits) == PrefixOf(addr, bits)
  {
    var s := addr + ['/'] + bits;
    IndexOfPrefix(addr, '/', bits);
    assert s[..|addr|] == addr;
    assert s[|addr| + 1..] == bits;
  }

  function FormatCIDR(a: Octet, b: Octet, c: Octet, d: Octet, len: nat): string
  {
    FormatV4(a, b, c, d) + ['/'] + DecimalString(len)
  }

  /** Parsing `a.b.c.d/len` gives the network `a.b.c.d` with its host bits cleared. */
  lemma ParseFormatCIDR(a: Octet, b: Octet, c: Octet, d: Octet, len: PrefixLen)
    ensures ParseCIDR(FormatCIDR(a, b, c, d, len))
         == Ok(Prefix(Masked(FromOctets(a, b, c, d), len), len))
  {
    OctetText(a); OctetText(b); OctetText(c); OctetText(d);
    var t, bits := FormatV4(a, b, c, d), DecimalString(len);
    CutAtSlash(t, bits);
    ParseFormatIP(a, b, c, d);
    DecimalRoundTrip(len);
    PrefixOfV4(t, bits, FromOctets(a, b, c, d), len);
  }
}
