/**
 Byte-wise comparison of strings, as bbolt orders its keys and as `bytes.Compare` orders the
 keys of a cursor scan, and the fixed-width decimal numerals that time keys are made of.
 */
module Text {

  datatype Option<+T> = None | Some(value: T)
  {
    function GetOr(default: T): T {
      if Some? then value else default
    }
  }

  /** `bytes.Compare(a, b) < 0`. */
  predicate Less(a: string, b: string)
  {
    |b| > 0 && (|a| == 0 || a[0] < b[0] || (a[0] == b[0] && Less(a[1..], b[1..])))
  }

  /** `bytes.Compare(a, b) <= 0`. */
  predicate AtMost(a: string, b: string)
  {
    a == b || Less(a, b)
  }

  lemma {:induction false} LessIrreflexive(a: string)
    ensures !Less(a, a)
  {
    if |a| > 0 {
      LessIrreflexive(a[1..]);
    }
  }

  lemma {:induction false} LessTransitive(a: string, b: string, c: string)
    requires Less(a, b) && Less(b, c)
    ensures Less(a, c)
  {
    if |a| > 0 && a[0] == b[0] && b[0] == c[0] {
      LessTransitive(a[1..], b[1..], c[1..]);
    }
  }

  lemma {:induction false} LessTotal(a: string, b: string)
    ensures Less(a, b) || a == b || Less(b, a)
  {
    if |a| > 0 && |b| > 0 && a[0] == b[0] {
      LessTotal(a[1..], b[1..]);
      if a[1..] == b[1..] {
        assert a == [a[0]] + a[1..] && b == [b[0]] + b[1..];
      }
    }
  }

  lemma LessAsymmetric(a: string, b: string)
    requires Less(a, b)
    ensures !Less(b, a) && a != b
  {
    LessIrreflexive(a);
    if Less(b, a) {
      LessTransitive(a, b, a);
    }
  }

  /** Strings with equally long heads compare by their heads first and by their tails second. */
  lemma {:induction false} LessByParts(a: string, b: string, x: string, y: string)
    requires |a| == |b|
    ensures Less(a + x, b + y) <==> Less(a, b) || (a == b && Less(x, y))
  {
    if |a| == 0 {
      assert a + x == x && b + y == y;
    } else {
      assert (a + x)[1..] == a[1..] + x;
      assert (b + y)[1..] == b[1..] + y;
      LessByParts(a[1..], b[1..], x, y);
      if a[0] == b[0] && a[1..] == b[1..] {
        assert a == [a[0]] + a[1..] && b == [b[0]] + b[1..];
      }
    }
  }

  function Pow10(w: nat): (p: nat)
    ensures p > 0
  {
    if w == 0 then 1 else 10 * Pow10(w - 1)
  }

  function DigitChar(d: nat): (c: char)
    requires d < 10
    ensures '0' <= c <= '9'
  {
    '0' + d as char
  }

  /** The `w`-digit, zero-padded decimal numeral of `n`. */
  function Numeral(w: nat, n: nat): (s: string)
    requires n < Pow10(w)
    ensures |s| == w
  {
    if w == 0 then "" else Numeral(w - 1, n / 10) + [DigitChar(n % 10)]
  }

  predicate IsDigit(c: char)
  {
    '0' <= c <= '9'
  }

  predicate AllDigits(s: string)
  {
    forall i | 0 <= i < |s| :: IsDigit(s[i])
  }

  function DigitValue(c: char): (d: nat)
    requires IsDigit(c)
    ensures d < 10 && DigitChar(d) == c
  {
    c as int - '0' as int
  }

  /** A numeral read from the left. */
  function ValueOf(s: string): nat
    requires AllDigits(s)
  {
    if s == "" then 0 else 10 * ValueOf(s[..|s| - 1]) + DigitValue(s[|s| - 1])
  }

  lemma {:induction false} NumeralHasTheValue(w: nat, n: nat)
    requires n < Pow10(w)
    ensures AllDigits(Numeral(w, n)) && ValueOf(Numeral(w, n)) == n
  {
    if w > 0 {
      NumeralHasTheValue(w - 1, n / 10);
      var s := Numeral(w, n);
      assert s[..w - 1] == Numeral(w - 1, n / 10) && s[w - 1] == DigitChar(n % 10);
    }
  }

  /** Numerals of one width are ordered like the numbers they stand for. */
  lemma {:induction false} NumeralOrder(w: nat, a: nat, b: nat)
    requires a < b < Pow10(w)
    ensures Less(Numeral(w, a), Numeral(w, b))
  {
    if w > 0 {
      var x, y := [DigitChar(a % 10)], [DigitChar(b % 10)];
      LessByParts(Numeral(w - 1, a / 10), Numeral(w - 1, b / 10), x, y);
      if a / 10 < b / 10 {
        NumeralOrder(w - 1, a / 10, b / 10);
      } else {
        assert a % 10 < b % 10;
      }
    }
  }
}
