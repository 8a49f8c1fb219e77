/** Text helpers shared by the other modules.  A Go string that the program cuts,
    measures or compares byte by byte is a `string` here with one character per byte. */
module Text {

  datatype Option<+T> = None | Some(value: T)

  // ---------------------------------------------------------------- order on strings

  /** Bytewise lexicographic order: the order of Go's `<` on strings. */
  predicate Less(a: string, b: string) {
    if |b| == 0 then false
    else if |a| == 0 then true
    else a[0] < b[0] || (a[0] == b[0] && Less(a[1..], b[1..]))
  }

  /** At the first place where two strings differ the smaller one ends or has the smaller byte. */
  lemma {:induction false} LessIff(a: string, b: string)
    ensures Less(a, b) <==>
            exists i :: 0 <= i <= |a| && i < |b| && a[..i] == b[..i] && (i == |a| || a[i] < b[i])
  {
    if |b| == 0 {
    } else if |a| == 0 {
      assert a[..0] == b[..0];
    } else {
      LessIff(a[1..], b[1..]);
      if Less(a, b) {
        if a[0] < b[0] {
          assert a[..0] == b[..0];
        } else {
          var i :| 0 <= i <= |a[1..]| && i < |b[1..]| && a[1..][..i] == b[1..][..i] &&
                   (i == |a[1..]| || a[1..][i] < b[1..][i]);
          assert a[..i + 1] == [a[0]] + a[1..][..i] && b[..i + 1] == [b[0]] + b[1..][..i];
        }
      }
      forall i | 0 <= i <= |a| && i < |b| && a[..i] == b[..i] && (i == |a| || a[i] < b[i]) ensures Less(a, b) {
        if i > 0 {
          assert a[..i][0] == a[0] && b[..i][0] == b[0];
          assert a[1..][..i - 1] == a[..i][1..] && b[1..][..i - 1] == b[..i][1..];
        }
      }
    }
  }

  lemma {:induction false} LessIrreflexive(a: string)
    ensures !Less(a, a)
  {
    if |a| > 0 { LessIrreflexive(a[1..]); }
  }

  lemma {:induction false} LessTransitive(a: string, b: string, c: string)
    requires Less(a, b) && Less(b, c)
    ensures Less(a, c)
  {
    if |a| > 0 && a[0] == b[0] == c[0] {
      LessTransitive(a[1..], b[1..], c[1..]);
    }
  }

  lemma {:induction false} LessTotal(a: string, b: string)
    ensures a == b || Less(a, b) || Less(b, a)
  {
    if |a| > 0 && |b| > 0 && a[0] == b[0] {
      LessTotal(a[1..], b[1..]);
      assert a == [a[0]] + a[1..] && b == [b[0]] + b[1..];
    }
  }

  /** Strictly increasing, hence without duplicates. */
  ghost predicate Increasing(s: seq<string>) {
    forall i, j :: 0 <= i < j < |s| ==> Less(s[i], s[j])
  }

  /** A set of strings has only one increasing enumeration. */
  lemma {:induction false} IncreasingUnique(a: seq<string>, b: seq<string>)
    requires Increasing(a) && Increasing(b)
    requires forall x :: x in a <==> x in b
    ensures a == b
  {
    assert forall s: seq<string> :: |s| > 0 ==> s[0] in s;
    if |a| > 0 {
      HeadsAgree(a, b);
      forall x ensures x in a[1..] <==> x in b[1..] {
        TailMembers(a, x);
        TailMembers(b, x);
      }
      IncreasingUnique(a[1..], b[1..]);
      assert a == [a[0]] + a[1..] && b == [b[0]] + b[1..];
    }
  }

  lemma TailMembers(a: seq<string>, x: string)
    requires |a| > 0 && Increasing(a)
    ensures x in a[1..] <==> x in a && x != a[0]
  {
    LessIrreflexive(x);
    if x in a && x != a[0] {
      var i :| 0 <= i < |a| && a[i] == x;
      assert a[1..][i - 1] == x;
    }
  }

  lemma HeadsAgree(a: seq<string>, b: seq<string>)
    requires |a| > 0 && |b| > 0 && Increasing(a) && Increasing(b)
    requires a[0] in b && b[0] in a
    ensures a[0] == b[0]
  {
    var i :| 0 <= i < |b| && b[i] == a[0];
    var j :| 0 <= j < |a| && a[j] == b[0];
    if i > 0 && j > 0 {
      LessTransitive(a[0], b[0], a[0]);
      LessIrreflexive(a[0]);
    }
  }

  // ---------------------------------------------------------------- number formats

  predicate IsHexChar(c: char) {
    '0' <= c <= '9' || 'a' <= c <= 'f'
  }

  ghost predicate IsHex(s: string) {
    forall i :: 0 <= i < |s| ==> IsHexChar(s[i])
  }

  function HexChar(d: nat): (c: char)
    requires d < 16
    ensures IsHexChar(c)
  {
    if d < 10 then ('0' as int + d) as char else ('a' as int + d - 10) as char
  }

  /** `n` in base 16 with exactly `width` digits; higher digits are cut. */
  function HexPad(n: nat, width: nat): (s: string)
    ensures |s| == width && IsHex(s)
  {
    if width == 0 then "" else HexPad(n / 16, width - 1) + [HexChar(n % 16)]
  }

  /** The digits, from the last to the first, are those of the number in base 16. */
  lemma {:induction false} HexPadDigits(n: nat, width: nat, k: nat)
    requires k < width
    ensures HexPad(n, width)[width - 1 - k] == "0123456789abcdef"[(n / Pow(16, k)) % 16]
  {
    if k > 0 {
      HexPadDigits(n / 16, width - 1, k - 1);
      DivDiv(n, 16, Pow(16, k - 1));
    } else {
      assert Pow(16, 0) == 1;
    }
  }

  function Pow(b: nat, e: nat): (p: nat)
    ensures b > 0 ==> p > 0
  {
    if e == 0 then 1 else b * Pow(b, e - 1)
  }

  /** Keeping the top `k` of `k + d` hex digits keeps exactly `n` divided by 16^d. */
  lemma {:induction false} HexPadPrefix(n: nat, k: nat, d: nat)
    ensures HexPad(n, k + d)[..k] == HexPad(n / Pow(16, d), k)
  {
    if d == 0 {
    } else {
      HexPadPrefix(n / 16, k, d - 1);
      DivDiv(n, 16, Pow(16, d - 1));
      assert HexPad(n, k + d)[..k] == HexPad(n / 16, k + (d - 1))[..k];
    }
  }

  lemma DivDiv(n: nat, d: nat, p: nat)
    requires d > 0 && p > 0
    ensures d * p > 0 && (n / d) / p == n / (d * p)
  {
    var q := n / d;
    var t := q / p;
    assert q == p * t + q % p;
    assert n == d * q + n % d;
    assert d * (p * t) == (d * p) * t;
    assert d * (p * t + q % p) == d * (p * t) + d * (q % p);
    RestIsSmall(d, p, q % p, n % d);
    DivUnique(n, d * p, t, d * (q % p) + n % d);
  }

  lemma RestIsSmall(d: nat, p: nat, u: nat, v: nat)
    requires u < p && v < d
    ensures d * u + v < d * p
  {
    assert d * (p - u) >= d by { MulAtLeast(d, p - u); }
    assert d * (p - u) == d * p - d * u;
  }

  lemma DivUnique(n: nat, d: nat, q: nat, r: nat)
    requires n == d * q + r && r < d
    ensures n / d == q
  {
    var e := n / d;
    assert n == d * e + n % d;
    assert d * (e - q) == r - n % d;
    MulAtLeast(d, e - q);
  }

  lemma MulAtLeast(d: int, k: int)
    requires d > 0
    ensures k >= 1 ==> d * k >= d
    ensures k <= -1 ==> d * k <= -d
  {
    if k >= 1 {
      assert d * k == d + d * (k - 1);
    } else if k <= -1 {
      assert d * k == -d + d * (k + 1);
    }
  }

  /** Hex digits determine the number, when it fits the width. */
  lemma {:induction false} HexPadInjective(m: nat, n: nat, width: nat)
    requires m < Pow(16, width) && n < Pow(16, width)
    ensures HexPad(m, width) == HexPad(n, width) ==> m == n
  {
    if width > 0 && HexPad(m, width) == HexPad(n, width) {
      var a, b := HexPad(m / 16, width - 1), HexPad(n / 16, width - 1);
      assert (a + [HexChar(m % 16)])[..width - 1] == a;
      assert (b + [HexChar(n % 16)])[..width - 1] == b;
      assert (a + [HexChar(m % 16)])[width - 1] == HexChar(m % 16);
      assert (b + [HexChar(n % 16)])[width - 1] == HexChar(n % 16);
      HexPadInjective(m / 16, n / 16, width - 1);
    }
  }

  function DigitChar(d: nat): (c: char)
    requires d < 10
    ensures '0' <= c <= '9'
  {
    ('0' as int + d) as char
  }

  /** Decimal digits without leading zeros: Go's `%d` on a non-negative number. */
  function Decimal(n: nat): (s: string)
    ensures |s| > 0 && forall i :: 0 <= i < |s| ==> '0' <= s[i] <= '9'
  {
    if n < 10 then [DigitChar(n)] else Decimal(n / 10) + [DigitChar(n % 10)]
  }

  /** The digits, from the last to the first, are those of the number in base 10. */
  lemma {:induction false} DecimalDigits(n: nat, k: nat)
    requires k < |Decimal(n)|
    ensures Decimal(n)[|Decimal(n)| - 1 - k] == "0123456789"[(n / Pow(10, k)) % 10]
  {
    if k == 0 {
      assert Pow(10, 0) == 1;
    } else {
      var m := n / 10;
      DecimalDigits(m, k - 1);
      DivDiv(n, 10, Pow(10, k - 1));
      assert Decimal(n)[|Decimal(n)| - 1 - k] == Decimal(m)[|Decimal(m)| - 1 - (k - 1)];
    }
  }

  /** There are as many digits as the number needs. */
  lemma {:induction false} DecimalMeasure(n: nat)
    ensures n < Pow(10, |Decimal(n)|) && (|Decimal(n)| > 1 ==> Pow(10, |Decimal(n)| - 1) <= n)
  {
    assert Pow(10, 0) == 1 && Pow(10, 1) == 10;
    if n >= 10 { DecimalMeasure(n / 10); }
  }

  lemma {:induction false} DecimalInjective(m: nat, n: nat)
    requires Decimal(m) == Decimal(n)
    ensures m == n
  {
    var s := Decimal(m);
    assert s[|s| - 1] == DigitChar(m % 10) == DigitChar(n % 10);
    if m >= 10 && n >= 10 {
      assert s[..|s| - 1] == Decimal(m / 10) == Decimal(n / 10);
      DecimalInjective(m / 10, n / 10);
    }
  }

  lemma {:induction false} DecimalLength(n: nat, k: nat)
    requires k > 0 && n < Pow(10, k)
    ensures |Decimal(n)| <= k
  {
    if n >= 10 {
      assert k > 1;
      DecimalLength(n / 10, k - 1);
    }
  }

  lemma {:induction false} DecimalGrows(m: nat, n: nat)
    requires m <= n
    ensures |Decimal(m)| <= |Decimal(n)|
  {
    if n >= 10 && m >= 10 { DecimalGrows(m / 10, n / 10); }
  }

  // ---------------------------------------------------------------- trimming

  function TrimRight(s: string, cut: set<char>): (r: string)
    ensures r <= s
    ensures r != "" ==> r[|r| - 1] !in cut
    ensures forall i :: |r| <= i < |s| ==> s[i] in cut
  {
    if |s| > 0 && s[|s| - 1] in cut then TrimRight(s[..|s| - 1], cut) else s
  }

  function LeadingCount(s: string, cut: set<char>): (k: nat)
    ensures k <= |s|
    ensures forall i :: 0 <= i < k ==> s[i] in cut
    ensures k < |s| ==> s[k] !in cut
  {
    if |s| > 0 && s[0] in cut then 1 + LeadingCount(s[1..], cut) else 0
  }

  function TrimLeft(s: string, cut: set<char>): string {
    s[LeadingCount(s, cut)..]
  }
}
