/** The handful of JavaScript string operations the downloaders rely on:
    `String(n)` for integers, `padStart`, `split(c)[0]` and
    `replaceAll(c, "")`, each stated over `seq<char>`. */
module Text {

  predicate IsDigit(c: char) { '0' <= c <= '9' }

  predicate AllDigits(s: string) { forall i :: 0 <= i < |s| ==> IsDigit(s[i]) }

  function DigitValue(c: char): nat
    requires IsDigit(c)
  {
    c as int - '0' as int
  }

  function DigitChar(d: nat): (c: char)
    requires d < 10
    ensures IsDigit(c) && DigitValue(c) == d
  {
    ('0' as int + d) as char
  }

  function Pow10(k: nat): nat
  {
    if k == 0 then 1 else 10 * Pow10(k - 1)
  }

  /** `String(n)` for a non-negative integer: decimal digits, and no leading
      zero except for zero itself. */
  function NatToString(n: nat): (s: string)
    ensures |s| >= 1 && AllDigits(s)
    ensures s[0] == '0' <==> n == 0
    decreases n
  {
    if n < 10 then [DigitChar(n)] else NatToString(n / 10) + [DigitChar(n % 10)]
  }

  /** `String(i)` for any integer. */
  function IntToString(i: int): (s: string)
    ensures |s| >= 1
    ensures s[0] == '-' <==> i < 0
  {
    if i < 0 then "-" + NatToString(-i) else NatToString(i)
  }

  /** The value of a string of decimal digits (leading zeros allowed). */
  function ParseNat(s: string): nat
    requires AllDigits(s)
  {
    if |s| == 0 then 0 else ParseNat(s[..|s| - 1]) * 10 + DigitValue(s[|s| - 1])
  }

  lemma {:induction false} ParseNatToString(n: nat)
    ensures ParseNat(NatToString(n)) == n
    decreases n
  {
    if n >= 10 {
      var s := NatToString(n);
      assert s == NatToString(n / 10) + [DigitChar(n % 10)];
      assert s[..|s| - 1] == NatToString(n / 10);
      ParseNatToString(n / 10);
    }
  }

  /** The decimal form of `n` has exactly `k + 1` digits when
      `10^k <= n < 10^(k+1)` (or `n` is zero and `k` is zero). */
  lemma {:induction false} NatToStringLength(n: nat, k: nat)
    requires k == 0 || Pow10(k) <= n
    requires n < Pow10(k + 1)
    ensures |NatToString(n)| == k + 1
    decreases k
  {
    if k > 0 {
      assert n >= 10;
      assert Pow10(k - 1) <= n / 10 < Pow10(k);
      NatToStringLength(n / 10, k - 1);
    } else {
      assert n < 10;
    }
  }

  /** Leading zeros do not change the value of a digit string. */
  lemma {:induction false} ParseNatZeroPrefix(z: string, s: string)
    requires forall i :: 0 <= i < |z| ==> z[i] == '0'
    requires AllDigits(s)
    ensures AllDigits(z + s)
    ensures ParseNat(z + s) == ParseNat(s)
    decreases |s|, |z|
  {
    if |s| == 0 {
      assert z + s == z;
      if |z| > 0 {
        ParseNatZeroPrefix(z[..|z| - 1], s);
        assert z[..|z| - 1] + s == z[..|z| - 1];
      }
    } else {
      assert (z + s)[..|z + s| - 1] == z + s[..|s| - 1];
      ParseNatZeroPrefix(z, s[..|s| - 1]);
    }
  }

  /** `s.padStart(width, fill)` with a one-character fill. */
  function PadStart(s: string, width: nat, fill: char): (r: string)
    ensures |r| == if |s| >= width then |s| else width
    decreases width - |s|
  {
    if |s| >= width then s else PadStart([fill] + s, width, fill)
  }

  /** The padded text is fill characters followed by the original text. */
  lemma {:induction false} PadStartShape(s: string, width: nat, fill: char)
    ensures var r := PadStart(s, width, fill);
            && r == r[..|r| - |s|] + s
            && forall i :: 0 <= i < |r| - |s| ==> r[i] == fill
    decreases width - |s|
  {
    if |s| < width {
      var t := [fill] + s;
      var r := PadStart(t, width, fill);
      PadStartShape(t, width, fill);
      assert r == r[..|r| - |t|] + t;
      assert r[..|r| - |s|] == r[..|r| - |t|] + [fill];
    }
  }

  /** A number written with at least `width` digits, zero-filled on the
      left, reads back as the same number. */
  lemma ZeroPaddedValue(n: nat, width: nat)
    ensures AllDigits(PadStart(NatToString(n), width, '0'))
    ensures ParseNat(PadStart(NatToString(n), width, '0')) == n
  {
    var s := NatToString(n);
    var r := PadStart(s, width, '0');
    PadStartShape(s, width, '0');
    var z := r[..|r| - |s|];
    assert r == z + s;
    ParseNatZeroPrefix(z, s);
    ParseNatToString(n);
  }

  /** `s.split(c)[0]`: the text before the first `c`, or all of `s`. */
  function CutAt(s: string, c: char): string
  {
    if |s| == 0 || s[0] == c then "" else [s[0]] + CutAt(s[1..], c)
  }

  /** The first piece is a prefix free of `c`, and it stops either at the
      end of `s` or just before a `c`. */
  lemma {:induction false} CutAtPrefix(s: string, c: char)
    ensures CutAt(s, c) <= s
    ensures c !in CutAt(s, c)
    ensures |CutAt(s, c)| < |s| ==> s[|CutAt(s, c)|] == c
    decreases |s|
  {
    if |s| > 0 && s[0] != c {
      CutAtPrefix(s[1..], c);
      assert s == [s[0]] + s[1..];
    }
  }

  /** The text after the first `c` in `s`, or "" when there is none. */
  function After(s: string, c: char): (r: string)
    ensures c in s ==> s == CutAt(s, c) + [c] + r
    ensures c !in s ==> r == ""
  {
    CutAtPrefix(s, c);
    if c in s then
      var k := |CutAt(s, c)|;
      assert k < |s|;
      assert s == s[..k] + [c] + s[k + 1..];
      s[k + 1..]
    else
      ""
  }

  /** Splitting at the first separator recovers both halves when the left
      half holds no separator. */
  lemma {:induction false} CutAtJoin(a: string, c: char, b: string)
    requires c !in a
    ensures CutAt(a + [c] + b, c) == a
    ensures After(a + [c] + b, c) == b
    decreases |a|
  {
    var s := a + [c] + b;
    CutAtPrefix(s, c);
    if |a| > 0 {
      assert s[1..] == a[1..] + [c] + b;
      CutAtJoin(a[1..], c, b);
      assert a == [a[0]] + a[1..];
    }
    assert c in s by { assert s[|a|] == c; }
    assert s == a + [c] + After(s, c);
    assert After(s, c) == s[|a| + 1..];
  }

  /** A string without the separator is its own first piece. */
  lemma CutAtAbsent(s: string, c: char)
    requires c !in s
    ensures CutAt(s, c) == s
  {
    var r := CutAt(s, c);
    CutAtPrefix(s, c);
    assert |r| == |s|;
  }

  /** `s.replaceAll(c, "")` for a single character `c`. */
  function RemoveAll(s: string, c: char): (r: string)
    ensures c !in r
    ensures forall x :: x != c ==> multiset(r)[x] == multiset(s)[x]
  {
    if |s| == 0 then ""
    else
      assert s == [s[0]] + s[1..];
      (if s[0] == c then "" else [s[0]]) + RemoveAll(s[1..], c)
  }

  /** Removing a character works piece by piece, so the characters kept
      stay in their original order. */
  lemma {:induction false} RemoveAllAppend(a: string, b: string, c: char)
    ensures RemoveAll(a + b, c) == RemoveAll(a, c) + RemoveAll(b, c)
    decreases |a|
  {
    if |a| > 0 {
      assert (a + b)[1..] == a[1..] + b;
      RemoveAllAppend(a[1..], b, c);
    } else {
      assert a + b == b;
    }
  }

  /** Regrouping a five-part concatenation. */
  lemma Concat5(a: string, b: string, c: string, d: string, e: string)
    ensures a + b + c + d + e == a + (b + c + d + e)
  {
  }
}
