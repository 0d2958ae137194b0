/** Character and string helpers used by the address and header parsers. */
module Text {

  predicate IsDigit(c: char) { '0' <= c <= '9' }

  predicate IsHexDigit(c: char) { '0' <= c <= '9' || 'a' <= c <= 'f' || 'A' <= c <= 'F' }

  function DigitValue(c: char): (d: nat)
    requires IsDigit(c)
    ensures d < 10
  {
    c as int - '0' as int
  }

  function HexDigitValue(c: char): (d: nat)
    requires IsHexDigit(c)
    ensures d < 16
  {
    if '0' <= c <= '9' then c as int - '0' as int
    else if 'a' <= c <= 'f' then c as int - 'a' as int + 10
    else c as int - 'A' as int + 10
  }

  predicate AllDigits(s: string) { forall i | 0 <= i < |s| :: IsDigit(s[i]) }

  predicate AllHexDigits(s: string) { forall i | 0 <= i < |s| :: IsHexDigit(s[i]) }

  /** The number a string of decimal digits denotes (most significant digit first). */
  function DecimalValue(s: string): nat
    requires AllDigits(s)
  {
    if s == [] then 0 else DecimalValue(s[..|s| - 1]) * 10 + DigitValue(s[|s| - 1])
  }

  /** The number a string of hexadecimal digits denotes. */
  function HexValue(s: string): nat
    requires AllHexDigits(s)
  {
    if s == [] then 0 else HexValue(s[..|s| - 1]) * 16 + HexDigitValue(s[|s| - 1])
  }

  /** Shortest decimal text of `n`, as Go's `strconv.Itoa` writes it. */
  function DecimalString(n: nat): (s: string)
    ensures s != [] && AllDigits(s)
    ensures n == 0 <==> s == "0"
    ensures s[0] == '0' ==> s == "0"
  {
    if n < 10 then [(n + '0' as int) as char]
    else DecimalString(n / 10) + [((n % 10) + '0' as int) as char]
  }

  lemma {:induction false} DecimalRoundTrip(n: nat)
    ensures DecimalValue(DecimalString(n)) == n
  {
    if n >= 10 {
      var s := DecimalString(n);
      assert s[..|s| - 1] == DecimalString(n / 10);
      DecimalRoundTrip(n / 10);
    }
  }

  /** Position of the first `c` in `s`, or -1 (Go's `strings.IndexByte`). */
  function IndexOf(s: string, c: char): (i: int)
    ensures -1 <= i < |s|
    ensures i == -1 <==> c !in s
    ensures 0 <= i ==> s[i] == c && c !in s[..i]
  {
    if |s| == 0 then -1
    else if s[0] == c then 0
    else
      var j := IndexOf(s[1..], c);
      assert j >= 0 ==> s[..j + 1] == [s[0]] + s[1..][..j];
      if j < 0 then -1 else j + 1
  }

  /** Position of the last `c` in `s`, or -1 (Go's `bytealg.LastIndexByteString`). */
  function LastIndexOf(s: string, c: char): (i: int)
    ensures -1 <= i < |s|
    ensures i == -1 <==> c !in s
    ensures 0 <= i ==> s[i] == c && c !in s[i + 1..]
  {
    if |s| == 0 then -1
    else if s[|s| - 1] == c then |s| - 1
    else
      var j := LastIndexOf(s[..|s| - 1], c);
      LastIndexOfStep(s, c, j);
      j
  }

  /** A `c` found in all but the last character of `s`, which is not `c`, is the last `c` of `s`. */
  lemma LastIndexOfStep(s: string, c: char, j: int)
    requires |s| > 0 && s[|s| - 1] != c && -1 <= j < |s| - 1
    requires j == -1 <==> c !in s[..|s| - 1]
    requires 0 <= j ==> s[j] == c && c !in s[..|s| - 1][j + 1..]
    ensures j == -1 <==> c !in s
    ensures 0 <= j ==> c !in s[j + 1..]
  {
    var init := s[..|s| - 1];
    assert s == init + [s[|s| - 1]];
    if j >= 0 {
      assert s[j + 1..] == init[j + 1..] + [s[|s| - 1]];
    }
  }

  /** The inverse of `Split`: the parts glued together with `sep` between them. */
  function Join(parts: seq<string>, sep: char): string
  {
    if |parts| <= 1 then (if parts == [] then "" else parts[0])
    else parts[0] + [sep] + Join(parts[1..], sep)
  }

  /** The pieces of `s` between occurrences of `sep` (Go's `strings.Split`). */
  function Split(s: string, sep: char): (parts: seq<string>)
    ensures |parts| >= 1
    ensures forall k | 0 <= k < |parts| :: sep !in parts[k]
    ensures Join(parts, sep) == s
    decreases |s|
  {
    var i := IndexOf(s, sep);
    if i < 0 then [s]
    else
      var rest := Split(s[i + 1..], sep);
      assert s == s[..i] + [sep] + s[i + 1..];
      [s[..i]] + rest
  }

  lemma IndexOfPrefix(a: string, c: char, b: string)
    requires c !in a
    ensures IndexOf(a + [c] + b, c) == |a|
  {
    var s := a + [c] + b;
    assert s[|a|] == c;
    assert s[..|a|] == a;
  }

  lemma IndexOfBefore(a: string, c: char, d: char, b: string)
    requires c !in a
    ensures IndexOf(a + [c] + [d] + b, c) == |a|
  {
    assert a + [c] + [d] + b == a + [c] + ([d] + b);
    IndexOfPrefix(a, c, [d] + b);
  }

  lemma LastIndexOfSuffix(a: string, c: char, b: string)
    requires c !in b
    ensures LastIndexOf(a + [c] + b, c) == |a|
  {
    var s := a + [c] + b;
    assert s[|a|] == c;
    assert s[|a| + 1..] == b;
  }

  /** Splitting at a separator-free first field peels that field off. */
  lemma SplitCons(a: string, sep: char, b: string)
    requires sep !in a
    ensures Split(a + [sep] + b, sep) == [a] + Split(b, sep)
  {
    var s := a + [sep] + b;
    IndexOfPrefix(a, sep, b);
    assert s[..|a|] == a;
    assert s[|a| + 1..] == b;
  }

  lemma SplitSingle(a: string, sep: char)
    requires sep !in a
    ensures Split(a, sep) == [a]
  {
  }

  /** Splitting three separator-free fields joined by `sep`. */
  lemma SplitThree(a: string, b: string, c: string, sep: char)
    requires sep !in a && sep !in b && sep !in c
    ensures var r := Split(a + [sep] + (b + [sep] + c), sep);
      |r| == 3 && r[0] == a && r[1] == b && r[2] == c
  {
    SplitCons(a, sep, b + [sep] + c);
    SplitCons(b, sep, c);
    SplitSingle(c, sep);
  }

  /** Splitting four separator-free fields joined by `sep`. */
  lemma SplitFour(a: string, b: string, c: string, d: string, sep: char)
    requires sep !in a && sep !in b && sep !in c && sep !in d
    ensures var r := Split(a + [sep] + (b + [sep] + (c + [sep] + d)), sep);
      |r| == 4 && r[0] == a && r[1] == b && r[2] == c && r[3] == d
  {
    var rest := b + [sep] + (c + [sep] + d);
    SplitCons(a, sep, rest);
    SplitThree(b, c, d, sep);
  }
}
