/** Decimal text of non-negative integers: JavaScript's `String(n)` and
    `n.toString()`, `padStart(2, '0')` and `slice(-k)` on digit strings. */
module Decimal {

  predicate IsDigit(c: char) {
    '0' <= c <= '9'
  }

  predicate AllDigits(s: string) {
    forall i :: 0 <= i < |s| ==> IsDigit(s[i])
  }

  /** `s.replace(/\D/g, '')`: the digits of `s`, in order. */
  function DigitsOnly(s: string): (r: string)
    ensures AllDigits(r) && |r| <= |s|
  {
    if s == [] then []
    else (if IsDigit(s[0]) then [s[0]] else []) + DigitsOnly(s[1..])
  }

  /** One character is kept exactly when it is a digit. */
  lemma DigitsOnlyChar(c: char)
    ensures DigitsOnly([c]) == if IsDigit(c) then [c] else []
  {
    assert [c][1..] == [];
  }

  /** The digits of two texts put together are the digits of the first
      followed by those of the second; with `DigitsOnlyChar` this fixes
      `DigitsOnly` on every text: its digits, in order. */
  lemma {:induction false} DigitsOnlyAppend(a: string, b: string)
    ensures DigitsOnly(a + b) == DigitsOnly(a) + DigitsOnly(b)
  {
    if a != [] {
      assert (a + b)[1..] == a[1..] + b;
      DigitsOnlyAppend(a[1..], b);
    } else {
      assert a + b == b;
    }
  }

  /** Nothing is left exactly when `s` has no digit. */
  lemma {:induction false} DigitsOnlyEmpty(s: string)
    ensures DigitsOnly(s) == [] <==> forall i :: 0 <= i < |s| ==> !IsDigit(s[i])
  {
    if s != [] {
      DigitsOnlyEmpty(s[1..]);
      assert forall i :: 1 <= i < |s| ==> s[i] == s[1..][i - 1];
    }
  }

  function DigitChar(d: nat): (c: char)
    requires d < 10
  {
    (48 + d) as char
  }

  function DigitValue(c: char): nat
    requires IsDigit(c)
  {
    c as int - 48
  }

  function Pow10(k: nat): (p: nat)
    ensures p >= 1
  {
    if k == 0 then 1 else 10 * Pow10(k - 1)
  }

  /** `String(n)` for a non-negative integer: its decimal digits, with no
      leading zero. */
  function DecimalString(n: nat): (s: string)
    ensures |s| >= 1 && AllDigits(s)
    ensures |s| > 1 ==> s[0] != '0'
  {
    if n < 10 then [DigitChar(n)] else DecimalString(n / 10) + [DigitChar(n % 10)]
  }

  /** The number denoted by a string of decimal digits (leading zeros allowed). */
  function DigitsValue(s: string): nat
    requires AllDigits(s)
  {
    if s == [] then 0 else DigitsValue(s[..|s| - 1]) * 10 + DigitValue(s[|s| - 1])
  }

  /** `String(n)` can be read back as `n`. */
  lemma {:induction false} DecimalStringValue(n: nat)
    ensures DigitsValue(DecimalString(n)) == n
  {
    if n >= 10 {
      var s := DecimalString(n);
      assert s[..|s| - 1] == DecimalString(n / 10);
      DecimalStringValue(n / 10);
    }
  }

  /** `String(n)` has one digit below 10, two below 100, and more otherwise. */
  lemma {:induction false} DecimalStringLength(n: nat)
    ensures n < 10 <==> |DecimalString(n)| == 1
    ensures 10 <= n < 100 <==> |DecimalString(n)| == 2
    ensures n >= 100 <==> |DecimalString(n)| >= 3
  {
    if n >= 10 {
      DecimalStringLength(n / 10);
    }
  }

  /** A number of at least 10^(k-1) takes at least k digits. */
  lemma {:induction false} DecimalStringAtLeast(n: nat, k: nat)
    requires k >= 1 && n >= Pow10(k - 1)
    ensures |DecimalString(n)| >= k
  {
    if k > 1 {
      assert n / 10 >= Pow10(k - 2);
      DecimalStringAtLeast(n / 10, k - 1);
    }
  }

  /** A string of k digits denotes a number below 10^k. */
  lemma {:induction false} DigitsValueBound(s: string)
    requires AllDigits(s)
    ensures DigitsValue(s) < Pow10(|s|)
  {
    if s != [] {
      DigitsValueBound(s[..|s| - 1]);
    }
  }

  lemma {:induction false} Pow10Monotone(j: nat, k: nat)
    requires j <= k
    ensures Pow10(j) <= Pow10(k)
  {
    if j < k {
      Pow10Monotone(j, k - 1);
    }
  }

  /** `s.padStart(2, '0')`: zeros in front until the length is 2. */
  function PadStart2(s: string): (r: string)
    ensures |r| == if |s| >= 2 then |s| else 2
    ensures r[|r| - |s|..] == s
    ensures forall i :: 0 <= i < |r| - |s| ==> r[i] == '0'
  {
    if |s| >= 2 then s else seq(2 - |s|, _ => '0') + s
  }

  /** Leading zeros do not change the number a digit string denotes. */
  lemma {:induction false} LeadingZerosValue(z: string, s: string)
    requires forall i :: 0 <= i < |z| ==> z[i] == '0'
    requires AllDigits(s)
    ensures AllDigits(z + s)
    ensures DigitsValue(z + s) == DigitsValue(s)
  {
    if s == [] {
      assert z + s == z;
      ZerosValue(z);
    } else {
      assert (z + s)[..|z + s| - 1] == z + s[..|s| - 1];
      LeadingZerosValue(z, s[..|s| - 1]);
    }
  }

  lemma {:induction false} ZerosValue(z: string)
    requires forall i :: 0 <= i < |z| ==> z[i] == '0'
    ensures AllDigits(z) && DigitsValue(z) == 0
  {
    if z != [] {
      ZerosValue(z[..|z| - 1]);
    }
  }

  /** Padding a digit string keeps it a digit string with the same value;
      for a number below 100 the padded text is exactly two digits. */
  lemma PadStart2Value(n: nat)
    ensures AllDigits(PadStart2(DecimalString(n)))
    ensures DigitsValue(PadStart2(DecimalString(n))) == n
    ensures n < 100 <==> |PadStart2(DecimalString(n))| == 2
  {
    var s := DecimalString(n);
    var r := PadStart2(s);
    DecimalStringLength(n);
    DecimalStringValue(n);
    var z := r[..|r| - |s|];
    assert r == z + s;
    LeadingZerosValue(z, s);
  }

  /** `s.slice(-k)` for k > 0: the last k characters, or all of `s`.
      (`slice(-0)` would be all of `s`, so k = 0 is excluded.) */
  function Last(s: string, k: nat): (r: string)
    requires k >= 1
    ensures |r| == if |s| <= k then |s| else k
    ensures r == s[|s| - |r|..]
  {
    if |s| <= k then s else s[|s| - k..]
  }

  /** The last k digits of a digit string denote its value modulo 10^k. */
  lemma {:induction false} SuffixValue(s: string, k: nat)
    requires AllDigits(s) && k <= |s|
    ensures AllDigits(s[k..])
    ensures DigitsValue(s[k..]) == DigitsValue(s) % Pow10(|s| - k)
  {
    if k == |s| {
      assert s[k..] == [];
    } else {
      var t := s[..|s| - 1];
      var c := DigitValue(s[|s| - 1]);
      assert s[k..][..|s[k..]| - 1] == t[k..];
      SuffixValue(t, k);
      var p := Pow10(|t| - k);
      var a := DigitsValue(t);
      assert DigitsValue(s[k..]) == (a % p) * 10 + c;
      assert DigitsValue(s) == a * 10 + c;
      ShiftMod(a, c, p);
    }
  }

  lemma ShiftMod(a: nat, c: nat, p: nat)
    requires c < 10 && p >= 1
    ensures (a % p) * 10 + c == (a * 10 + c) % (10 * p)
  {
    var q, r := a / p, a % p;
    assert a == q * p + r;
    assert a * 10 + c == q * (10 * p) + (r * 10 + c);
    assert 0 <= r * 10 + c < 10 * p;
    ModUnique(a * 10 + c, 10 * p, q, r * 10 + c);
  }

  lemma ModUnique(x: nat, m: nat, q: nat, r: nat)
    requires m >= 1 && x == q * m + r && r < m
    ensures x % m == r
  {
    var q', r' := x / m, x % m;
    DivModSpec(x, m);
    var d := q' - q;
    MulSub(q', q, m);
    assert d * m == r - r';
    if d >= 1 {
      MulAtLeast(d, m);
    } else if d <= -1 {
      MulAtLeast(-d, m);
      MulNeg(d, m);
    }
  }

  lemma DivModSpec(x: nat, m: nat)
    requires m >= 1
    ensures x == (x / m) * m + x % m && 0 <= x % m < m
  {
  }

  lemma MulSub(a: int, b: int, m: int)
    ensures a * m - b * m == (a - b) * m
  {
  }

  lemma MulNeg(d: int, m: int)
    ensures (-d) * m == -(d * m)
  {
  }

  lemma {:induction false} MulAtLeast(d: int, m: int)
    requires d >= 1 && m >= 1
    ensures d * m >= m
    decreases d
  {
    if d > 1 {
      MulAtLeast(d - 1, m);
      assert d * m == (d - 1) * m + m;
    }
  }

  /** The last k digits of `String(n)` denote n modulo 10^k. */
  lemma LastDigitsValue(n: nat, k: nat)
    requires k >= 1
    ensures AllDigits(Last(DecimalString(n), k))
    ensures DigitsValue(Last(DecimalString(n), k)) == n % Pow10(k)
  {
    if |DecimalString(n)| <= k {
      ShortLastValue(n, k);
    } else {
      LongLastValue(DecimalString(n), k);
      DecimalStringValue(n);
    }
  }

  lemma LongLastValue(s: string, k: nat)
    requires AllDigits(s) && 1 <= k < |s|
    ensures AllDigits(Last(s, k))
    ensures DigitsValue(Last(s, k)) == DigitsValue(s) % Pow10(k)
  {
    var j := |s| - k;
    SuffixValue(s, j);
    assert Last(s, k) == s[j..];
  }

  lemma ShortLastValue(n: nat, k: nat)
    requires k >= 1 && |DecimalString(n)| <= k
    ensures Last(DecimalString(n), k) == DecimalString(n)
    ensures DigitsValue(DecimalString(n)) == n % Pow10(k)
  {
    var s := DecimalString(n);
    DecimalStringValue(n);
    DigitsValueBound(s);
    Pow10Monotone(|s|, k);
    ModUnique(n, Pow10(k), 0, n);
  }
}
