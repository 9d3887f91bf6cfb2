/**
 Entity tags of static files: the decimal printer that fills a buffer from its end, and the tag
 strings put together from it.
 */
module Etag {
  import opened Text

  const UINT32: nat := 0x1_0000_0000

  /** The decimal form of a number. */
  function Decimal(n: nat): (s: string)
    ensures s != "" && forall i | 0 <= i < |s| :: IsDigit(s[i])
  {
    if n < 10 then [DigitChar(n)] else Decimal(n / 10) + [DigitChar(n % 10)]
  }

  /** A numeral without leading zeros. */
  predicate Canonical(s: string)
  {
    s != "" && (forall i | 0 <= i < |s| :: IsDigit(s[i])) && (|s| > 1 ==> s[0] != '0')
  }

  lemma {:induction false} DecimalIsCanonical(n: nat)
    ensures Canonical(Decimal(n)) && (n > 0 ==> Decimal(n)[0] != '0')
  {
    if n >= 10 {
      DecimalIsCanonical(n / 10);
    }
  }

  lemma {:induction false} DecimalHasTheValue(n: nat)
    ensures ValueOf(Decimal(n)) == n
  {
    if n < 10 {
      assert [DigitChar(n)][..0] == "";
    } else {
      DecimalHasTheValue(n / 10);
      var s := Decimal(n);
      assert s[..|s| - 1] == Decimal(n / 10) && s[|s| - 1] == DigitChar(n % 10);
    }
  }

  lemma {:induction false} CanonicalIsPositive(s: string)
    requires Canonical(s) && s[0] != '0'
    ensures ValueOf(s) > 0
    decreases |s|
  {
    if |s| > 1 {
      CanonicalIsPositive(s[..|s| - 1]);
    } else {
      assert s[..0] == "";
    }
  }

  /** A number has one numeral without leading zeros. */
  lemma {:induction false} DecimalIsUnique(s: string)
    requires Canonical(s)
    ensures s == Decimal(ValueOf(s))
    decreases |s|
  {
    var front, d := s[..|s| - 1], s[|s| - 1];
    assert s == front + [d];
    if |s| > 1 {
      assert Canonical(front);
      CanonicalIsPositive(front);
      DecimalIsUnique(front);
      assert ValueOf(s) / 10 == ValueOf(front) && ValueOf(s) % 10 == DigitValue(d);
    } else {
      assert front == "";
    }
    assert DigitChar(DigitValue(d)) == d;
  }

  lemma {:induction false} DecimalLength(n: nat, w: nat)
    requires w > 0 && n < Pow10(w)
    ensures |Decimal(n)| <= w
    decreases w
  {
    if n >= 10 {
      assert w > 1 by {
        assert Pow10(0) == 1 && Pow10(1) == 10;
      }
      DecimalLength(n / 10, w - 1);
    }
  }

  /** A 32-bit number has at most ten digits. */
  lemma TenDigits(n: nat)
    requires n < UINT32
    ensures |Decimal(n)| <= 10
  {
    assert Pow10(5) == 100000 by {
      assert Pow10(1) == 10 && Pow10(2) == 100 && Pow10(3) == 1000 && Pow10(4) == 10000;
    }
    assert Pow10(10) == 10_000_000_000 by {
      assert Pow10(6) == 1000000 && Pow10(7) == 10000000 && Pow10(8) == 100000000 && Pow10(9) == 1000000000;
    }
    DecimalLength(n, 10);
  }

  /** `appendUint`: digits are written backwards from the end of a 20-byte buffer. */
  method AppendUint(dst: string, n0: nat) returns (r: string)
    requires n0 < UINT32
    ensures r == dst + Decimal(n0)
  {
    TenDigits(n0);
    var buf := new char[20](_ => '0');
    var i := 20;
    var n := n0;
    while n >= 10
      invariant 0 <= n <= n0 && i <= 20
      invariant |Decimal(n)| + 10 <= i
      invariant Decimal(n) + buf[i..] == Decimal(n0)
    {
      i := i - 1;
      var q := n / 10;
      ghost var rest := buf[i + 1..];
      buf[i] := '0' + (n - q * 10) as char;
      assert buf[i..] == [DigitChar(n % 10)] + rest;
      n := q;
    }
    i := i - 1;
    ghost var rest := buf[i + 1..];
    buf[i] := '0' + n as char;
    assert buf[i..] == [DigitChar(n)] + rest;
    r := dst + buf[i..];
  }

  // Tags

  function StrongTag(length: nat, checksum: nat): string
  {
    "\"" + (Decimal(length % UINT32) + ("-" + (Decimal(checksum) + "\"")))
  }

  function WeakTag(checksum: nat): string
  {
    "W/\"" + (Decimal(checksum) + "\"")
  }

  /** The tag of a file: none where it cannot be read or is empty; the checksums are given. */
  method SetEtag(weak: bool, nameSum: nat, length: Option<nat>, bodySum: nat) returns (tag: Option<string>)
    requires nameSum < UINT32 && bodySum < UINT32
    ensures weak ==> tag == Some(WeakTag(nameSum))
    ensures !weak ==> tag == if length.Some? && length.value > 0 then Some(StrongTag(length.value, bodySum)) else None
  {
    var etag := "";
    if weak {
      etag := etag + "W/";
      etag := etag + "\"";
      etag := AppendUint(etag, nameSum);
      etag := etag + "\"";
      assert etag == WeakTag(nameSum);
      return Some(etag);
    }
    if length.None? || length.value == 0 {
      return None;
    }
    etag := etag + "\"";
    etag := AppendUint(etag, length.value % UINT32);
    etag := etag + "-";
    etag := AppendUint(etag, bodySum);
    etag := etag + "\"";
    assert etag == StrongTag(length.value, bodySum);
    tag := Some(etag);
  }

  /** The opaque-tag of section 2.3 of RFC 7232: quotes around characters none of which is a quote. */
  predicate OpaqueTag(s: string)
  {
    && |s| >= 2 && s[0] == '"' && s[|s| - 1] == '"'
    && forall i | 0 < i < |s| - 1 :: s[i] == '!' || '#' <= s[i] <= '~'
  }

  lemma TagsAreWellFormed(length: nat, checksum: nat)
    ensures OpaqueTag(StrongTag(length, checksum))
    ensures |WeakTag(checksum)| > 2 && WeakTag(checksum)[..2] == "W/" && OpaqueTag(WeakTag(checksum)[2..])
  {
    var a, b := Decimal(length % UINT32), Decimal(checksum);
    var s := StrongTag(length, checksum);
    assert s == "\"" + (a + ("-" + b)) + "\"";
    assert WeakTag(checksum)[2..] == "\"" + b + "\"";
  }

  /** What a tag says, read back: the length modulo 2^32 and the checksum, as plain numerals. */
  lemma TagsReadBack(length: nat, checksum: nat) returns (a: string, b: string)
    ensures Canonical(a) && Canonical(b)
    ensures ValueOf(a) == length % 0x1_0000_0000 && ValueOf(b) == checksum
    ensures StrongTag(length, checksum) == "\"" + a + "-" + b + "\""
    ensures WeakTag(checksum) == "W/\"" + b + "\""
  {
    a, b := Decimal(length % UINT32), Decimal(checksum);
    DecimalIsCanonical(length % UINT32);
    DecimalIsCanonical(checksum);
    DecimalHasTheValue(length % UINT32);
    DecimalHasTheValue(checksum);
    assert StrongTag(length, checksum) == "\"" + a + "-" + b + "\"";
    assert WeakTag(checksum) == "W/\"" + b + "\"";
  }

  /** Digits up to a dash can be told from what follows. */
  lemma DashSplits(a: string, b: string, c: string, d: string)
    requires (forall i | 0 <= i < |a| :: IsDigit(a[i])) && (forall i | 0 <= i < |c| :: IsDigit(c[i]))
    requires a + ("-" + b) == c + ("-" + d)
    ensures a == c && b == d
  {
    var s, t := a + ("-" + b), c + ("-" + d);
    assert s[|a|] == '-' && t[|c|] == '-';
    assert |a| == |c|;
    assert s[..|a|] == a && t[..|c|] == c;
    assert s[|a| + 1..] == b && t[|c| + 1..] == d;
  }

  /** Equal strong tags mean equal checksums and lengths equal modulo 2^32. */
  lemma EqualTags(length: nat, checksum: nat, length': nat, checksum': nat)
    requires StrongTag(length, checksum) == StrongTag(length', checksum')
    ensures length % UINT32 == length' % UINT32 && checksum == checksum'
  {
    var a, b := Decimal(length % UINT32), Decimal(checksum);
    var c, d := Decimal(length' % UINT32), Decimal(checksum');
    assert StrongTag(length, checksum)[1..] == a + ("-" + (b + "\""));
    assert StrongTag(length', checksum')[1..] == c + ("-" + (d + "\""));
    DashSplits(a, b + "\"", c, d + "\"");
    assert (b + "\"")[..|b|] == b && (d + "\"")[..|d|] == d;
    DecimalHasTheValue(length % UINT32);
    DecimalHasTheValue(length' % UINT32);
    DecimalHasTheValue(checksum);
    DecimalHasTheValue(checksum');
  }
}
