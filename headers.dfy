/**
 * HTTP header fields as Go's `http.Header` keeps them: every key in its
 * canonical form (`CanonicalMIMEHeaderKey`), values in the order they were
 * added. The header is a sequence of (key, value) pairs; the values of one key
 * keep their relative order, which is all `Get` and `Add` can observe.
 */
module Headers {

  type Header = seq<(string, string)>

  /** A byte allowed in a header field name (an RFC 7230 token character). */
  predicate IsTokenChar(c: char)
  {
    ('a' <= c <= 'z') || ('A' <= c <= 'Z') || ('0' <= c <= '9')
    || c in "!#$%&'*+-.^_`|~"
  }

  predicate AllToken(s: string)
  {
    forall i | 0 <= i < |s| :: IsTokenChar(s[i])
  }

  function ToUpper(c: char): char
  {
    if 'a' <= c <= 'z' then (c as int - 32) as char else c
  }

  function ToLower(c: char): char
  {
    if 'A' <= c <= 'Z' then (c as int + 32) as char else c
  }

  /**
   * The recasing loop of `CanonicalMIMEHeaderKey`: a letter is upper-cased
   * at the start and after each `-`, lower-cased everywhere else.
   */
  function Recase(s: string, upper: bool): (r: string)
    ensures |r| == |s|
    ensures forall i | 0 <= i < |s| :: ToLower(r[i]) == ToLower(s[i])
  {
    if s == [] then []
    else
      var c := if upper then ToUpper(s[0]) else ToLower(s[0]);
      var rest := Recase(s[1..], c == '-');
      assert forall i | 1 <= i < |s| :: ToLower(rest[i - 1]) == ToLower(s[i]) by {
        forall i | 1 <= i < |s| ensures ToLower(rest[i - 1]) == ToLower(s[i]) {
          assert s[1..][i - 1] == s[i];
        }
      }
      [c] + rest
  }

  /**
   * Go's `CanonicalMIMEHeaderKey`: a key made only of token characters is
   * recased (`x-host` becomes `X-Host`); any other key is left as it is.
   */
  function CanonicalKey(k: string): (r: string)
    ensures |r| == |k|
    ensures forall i | 0 <= i < |k| :: ToLower(r[i]) == ToLower(k[i])
  {
    if AllToken(k) then Recase(k, true) else k
  }

  /**
   * The rule `CanonicalMIMEHeaderKey` applies to a key of token characters:
   * the first character upper-cased, each one after a `-` upper-cased, and
   * every other one lower-cased.
   */
  lemma CanonicalRule(k: string)
    requires AllToken(k)
    ensures |k| > 0 ==> CanonicalKey(k)[0] == ToUpper(k[0])
    ensures forall i | 0 < i < |k| ::
      CanonicalKey(k)[i] == if k[i - 1] == '-' then ToUpper(k[i]) else ToLower(k[i])
  {
    RecaseRule(k, true);
  }

  lemma {:induction false} RecaseRule(s: string, upper: bool)
    ensures |s| > 0 ==> Recase(s, upper)[0] == if upper then ToUpper(s[0]) else ToLower(s[0])
    ensures forall i | 0 < i < |s| ::
      Recase(s, upper)[i] == if s[i - 1] == '-' then ToUpper(s[i]) else ToLower(s[i])
  {
    if s != [] {
      var c := if upper then ToUpper(s[0]) else ToLower(s[0]);
      var rest := Recase(s[1..], c == '-');
      RecaseRule(s[1..], c == '-');
      assert Recase(s, upper) == [c] + rest;
      assert c == '-' <==> s[0] == '-';
      forall i | 1 < i < |s|
        ensures Recase(s, upper)[i] == if s[i - 1] == '-' then ToUpper(s[i]) else ToLower(s[i])
      {
        assert s[1..][i - 1] == s[i] && s[1..][i - 2] == s[i - 1];
      }
    }
  }

  /** The first value stored under the exact key `ck`, or `""`. */
  function Lookup(h: Header, ck: string): (v: string)
    ensures v != "" ==> exists i | 0 <= i < |h| :: h[i] == (ck, v)
  {
    if h == [] then ""
    else if h[0].0 == ck then h[0].1
    else
      var v := Lookup(h[1..], ck);
      assert v != "" ==> exists i | 0 <= i < |h| :: h[i] == (ck, v) by {
        if v != "" {
          var j :| 0 <= j < |h[1..]| && h[1..][j] == (ck, v);
          assert h[j + 1] == (ck, v);
        }
      }
      v
  }

  /**
   * `Header.Get`: the first value of the key, or `""` when there is none. A
   * value it returns is stored under the key's canonical form.
   */
  function Get(h: Header, key: string): (v: string)
    ensures v != "" ==> exists i | 0 <= i < |h| :: h[i] == (CanonicalKey(key), v)
  {
    Lookup(h, CanonicalKey(key))
  }

  /**
   * `Header.Add`: one more value for the key, after all existing fields. The
   * key's values gain the new one at the end; every other key's values stay.
   */
  function Add(h: Header, key: string, value: string): (r: Header)
    ensures forall ck :: Values(r, ck) == Values(h, ck) + (if ck == CanonicalKey(key) then [value] else [])
    ensures |r| == |h| + 1 && r[..|h|] == h
    ensures r[|h|] == (CanonicalKey(key), value)
  {
    ValuesAppendAll(h, (CanonicalKey(key), value));
    h + [(CanonicalKey(key), value)]
  }

  /** Every value stored under the exact key `ck`, in order. */
  function Values(h: Header, ck: string): seq<string>
  {
    if h == [] then []
    else if h[0].0 == ck then [h[0].1] + Values(h[1..], ck)
    else Values(h[1..], ck)
  }

  /** The keys present in a header. */
  predicate HasKey(h: Header, ck: string)
  {
    exists i | 0 <= i < |h| :: h[i].0 == ck
  }

  // ------------------------------------------------------------ lemmas

  /** `Get` returns the first of the key's values, or `""` when it has none. */
  lemma {:induction false} GetIsFirstValue(h: Header, key: string)
    ensures var vs := Values(h, CanonicalKey(key));
      Get(h, key) == if vs == [] then "" else vs[0]
  {
    LookupIsFirst(h, CanonicalKey(key));
  }

  lemma {:induction false} LookupIsFirst(h: Header, ck: string)
    ensures var vs := Values(h, ck);
      Lookup(h, ck) == if vs == [] then "" else vs[0]
  {
    if h != [] && h[0].0 != ck {
      LookupIsFirst(h[1..], ck);
    }
  }

  /** A key has values exactly when some field carries it. */
  lemma {:induction false} ValuesIffKey(h: Header, ck: string)
    ensures Values(h, ck) != [] <==> HasKey(h, ck)
  {
    if h != [] {
      ValuesIffKey(h[1..], ck);
      if HasKey(h, ck) && h[0].0 != ck {
        var i :| 0 <= i < |h| && h[i].0 == ck;
        assert h[1..][i - 1].0 == ck;
      }
      if HasKey(h[1..], ck) {
        var i :| 0 <= i < |h[1..]| && h[1..][i].0 == ck;
        assert h[i + 1].0 == ck;
      }
    }
  }

  lemma {:induction false} ValuesAppend(h: Header, f: (string, string), ck: string)
    ensures Values(h + [f], ck) == Values(h, ck) + (if f.0 == ck then [f.1] else [])
  {
    if h != [] {
      assert (h + [f])[1..] == h[1..] + [f];
      ValuesAppend(h[1..], f, ck);
    }
  }

  lemma ValuesAppendAll(h: Header, f: (string, string))
    ensures forall ck :: Values(h + [f], ck) == Values(h, ck) + (if ck == f.0 then [f.1] else [])
  {
    forall ck
      ensures Values(h + [f], ck) == Values(h, ck) + (if ck == f.0 then [f.1] else [])
    {
      ValuesAppend(h, f, ck);
    }
  }

  /** `Add` appends the value to the key's values and leaves every other key's values alone. */
  lemma AddAppendsValue(h: Header, key: string, value: string, other: string)
    ensures Values(Add(h, key, value), CanonicalKey(key)) == Values(h, CanonicalKey(key)) + [value]
    ensures CanonicalKey(other) != CanonicalKey(key) ==>
              Values(Add(h, key, value), CanonicalKey(other)) == Values(h, CanonicalKey(other))
  {
  }

  /** `Add` never replaces: a key that already had a value still gets it first from `Get`. */
  lemma GetAfterAdd(h: Header, key: string, value: string)
    ensures HasKey(h, CanonicalKey(key)) ==> Get(Add(h, key, value), key) == Get(h, key)
    ensures !HasKey(h, CanonicalKey(key)) ==> Get(Add(h, key, value), key) == value
  {
    var ck := CanonicalKey(key);
    AddAppendsValue(h, key, value, key);
    ValuesIffKey(h, ck);
    GetIsFirstValue(h, key);
    GetIsFirstValue(Add(h, key, value), key);
  }

  /** Adding under one key does not change what `Get` returns for a different key. */
  lemma GetOtherAfterAdd(h: Header, key: string, value: string, other: string)
    requires CanonicalKey(other) != CanonicalKey(key)
    ensures Get(Add(h, key, value), other) == Get(h, other)
  {
    AddAppendsValue(h, key, value, other);
    GetIsFirstValue(h, other);
    GetIsFirstValue(Add(h, key, value), other);
  }

  lemma {:induction false} RecaseToken(s: string, upper: bool)
    requires AllToken(s)
    ensures AllToken(Recase(s, upper))
  {
    if s != [] {
      RecaseToken(s[1..], (if upper then ToUpper(s[0]) else ToLower(s[0])) == '-');
      var r := Recase(s, upper);
      assert r[1..] == Recase(s[1..], r[0] == '-');
    }
  }

  lemma {:induction false} RecaseTwice(s: string, upper: bool)
    ensures Recase(Recase(s, upper), upper) == Recase(s, upper)
  {
    if s != [] {
      var r := Recase(s, upper);
      assert r[1..] == Recase(s[1..], r[0] == '-');
      RecaseTwice(s[1..], r[0] == '-');
    }
  }

  /** Canonicalising a canonical key changes nothing. */
  lemma CanonicalIdempotent(k: string)
    ensures CanonicalKey(CanonicalKey(k)) == CanonicalKey(k)
  {
    if AllToken(k) {
      RecaseToken(k, true);
      RecaseTwice(k, true);
    }
  }

  /** Keys that differ only in the case of their letters have one canonical form. */
  lemma {:induction false} RecaseIgnoresCase(s: string, t: string, upper: bool)
    requires |s| == |t| && forall i | 0 <= i < |s| :: ToLower(s[i]) == ToLower(t[i])
    ensures Recase(s, upper) == Recase(t, upper)
  {
    if s != [] {
      var a := if upper then ToUpper(s[0]) else ToLower(s[0]);
      var b := if upper then ToUpper(t[0]) else ToLower(t[0]);
      assert a == b;
      RecaseIgnoresCase(s[1..], t[1..], a == '-');
    }
  }

  /** `Get` does not care about the case of the key it is asked for. */
  lemma GetIgnoresCase(h: Header, k1: string, k2: string)
    requires AllToken(k1) && AllToken(k2)
    requires |k1| == |k2| && forall i | 0 <= i < |k1| :: ToLower(k1[i]) == ToLower(k2[i])
    ensures Get(h, k1) == Get(h, k2)
  {
    RecaseIgnoresCase(k1, k2, true);
  }

  /** After `Add`, a key is present iff it was before or it is the added key. */
  lemma HasKeyAdd(h: Header, key: string, value: string, ck: string)
    ensures HasKey(Add(h, key, value), ck) <==> HasKey(h, ck) || CanonicalKey(key) == ck
  {
    var r := Add(h, key, value);
    if HasKey(r, ck) && CanonicalKey(key) != ck {
      var i :| 0 <= i < |r| && r[i].0 == ck;
      assert i < |h| && h[i] == r[i];
    }
    if HasKey(h, ck) {
      var i :| 0 <= i < |h| && h[i].0 == ck;
      assert r[i] == h[i];
    }
    if CanonicalKey(key) == ck {
      assert r[|h|].0 == ck;
    }
  }

  /** `X-Host` is already canonical. */
  lemma XHostCanonical()
    ensures CanonicalKey("X-Host") == "X-Host"
  {
    assert AllToken("X-Host");
    assert Recase("t", false) == "t";
    assert Recase("st", false) == "st";
    assert Recase("ost", false) == "ost";
    assert Recase("Host", true) == "Host";
    assert Recase("-Host", false) == "-Host";
  }

  /** `X-Method` is already canonical. */
  lemma XMethodCanonical()
    ensures CanonicalKey("X-Method") == "X-Method"
  {
    assert AllToken("X-Method");
    assert Recase("d", false) == "d";
    assert Recase("od", false) == "od";
    assert Recase("hod", false) == "hod";
    assert Recase("thod", false) == "thod";
    assert Recase("ethod", false) == "ethod";
    assert Recase("Method", true) == "Method";
    assert Recase("-Method", false) == "-Method";
  }

  /** The two carrier keys are different keys. */
  lemma CarrierKeysDiffer()
    ensures CanonicalKey("X-Host") != CanonicalKey("X-Method")
  {
    XHostCanonical();
    XMethodCanonical();
    assert "X-Host"[2] != "X-Method"[2];
  }
}
