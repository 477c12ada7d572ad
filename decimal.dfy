// Decimal digit strings: the characters '0'..'9', the value a digit string
// reads as, and the zero-padded and unpadded renderings of a number. Shared by
// the terminal's number parser and the message formatter.

module Decimal {
  import Utils

  /** 10 to the power n. */
  function Pow10(n: nat): (r: nat)
    ensures r >= 1
  {
    if n == 0 then 1 else 10 * Pow10(n - 1)
  }

  /** The character of a decimal digit. */
  function DigitChar(d: nat): (c: char)
    requires d <= 9
    ensures '0' <= c <= '9'
  {
    ('0' as int + d) as char
  }

  /** The digit a character '0'..'9' stands for: its low four bits. */
  function DigitOf(c: char): (d: nat)
    requires '0' <= c <= '9'
    ensures d <= 9 && DigitChar(d) == c
    ensures d == (c as int) % 16
  {
    c as int - '0' as int
  }

  /** Every character of `s` is a decimal digit. */
  predicate AllDigits(s: seq<char>)
  {
    forall i :: 0 <= i < |s| ==> '0' <= s[i] <= '9'
  }

  /** The value of a digit string, most significant digit first. */
  function Value(s: seq<char>): (v: nat)
    requires AllDigits(s)
  {
    if s == [] then 0 else DigitOf(s[0]) * Pow10(|s| - 1) + Value(s[1..])
  }

  /** Appending a digit multiplies the value by ten and adds the digit. */
  lemma {:induction false} ValueSnoc(p: seq<char>, c: char)
    requires AllDigits(p) && '0' <= c <= '9'
    ensures AllDigits(p + [c]) && Value(p + [c]) == Value(p) * 10 + DigitOf(c)
  {
    assert AllDigits(p + [c]);
    if p != [] {
      assert (p + [c])[1..] == p[1..] + [c];
      ValueSnoc(p[1..], c);
      var a, t, v := DigitOf(p[0]), Pow10(|p| - 1), Value(p[1..]);
      assert Value(p + [c]) == a * (10 * t) + v * 10 + DigitOf(c);
      assert Value(p) == a * t + v;
      Shift(a, t, v);
    } else {
      assert [] + [c] == [c];
    }
  }

  /** Moving a factor of ten out of a two-term sum. */
  lemma Shift(a: nat, t: nat, v: nat)
    ensures a * (10 * t) + v * 10 == (a * t + v) * 10
  {
  }

  /** Euclidean division: quotient times divisor plus a remainder below the divisor. */
  lemma DivMod(n: nat, d: nat)
    requires d > 0
    ensures n == n / d * d + n % d && n % d < d
  {
  }

  /** The last `w` decimal digits of `n`, with leading zeros. */
  function ZeroPadded(n: nat, w: nat): (s: seq<char>)
    ensures |s| == w && AllDigits(s)
  {
    if w == 0 then [] else ZeroPadded(n / 10, w - 1) + [DigitChar(n % 10)]
  }

  /** A number below 10^w reads back from its w-digit rendering. */
  lemma {:induction false} ZeroPaddedValue(n: nat, w: nat)
    requires n < Pow10(w)
    ensures Value(ZeroPadded(n, w)) == n
  {
    if w > 0 {
      ZeroPaddedValue(n / 10, w - 1);
      ValueSnoc(ZeroPadded(n / 10, w - 1), DigitChar(n % 10));
    }
  }

  /** A digit string is the zero-padded rendering of its own value: the rendering is unique. */
  lemma {:induction false} ZeroPaddedUnique(s: seq<char>)
    requires AllDigits(s)
    ensures ZeroPadded(Value(s), |s|) == s
  {
    if s != [] {
      var p, c := s[..|s| - 1], s[|s| - 1];
      assert s == p + [c];
      ValueSnoc(p, c);
      Utils.LemmaDivUnique(Value(s), 10, Value(p), DigitOf(c));
      ZeroPaddedUnique(p);
    }
  }

  /** The decimal rendering of `n` without leading zeros, as printf's "%d" writes it. */
  function Unpadded(n: nat): (s: seq<char>)
    ensures 1 <= |s| && AllDigits(s)
  {
    if n < 10 then [DigitChar(n)] else Unpadded(n / 10) + [DigitChar(n % 10)]
  }

  /** The unpadded rendering reads back as the number. */
  lemma {:induction false} UnpaddedValue(n: nat)
    ensures Value(Unpadded(n)) == n
    ensures n >= 10 ==> Unpadded(n)[0] != '0'
  {
    if n < 10 {
      assert Unpadded(n) == [] + [DigitChar(n)];
      ValueSnoc([], DigitChar(n));
    } else {
      UnpaddedValue(n / 10);
      ValueSnoc(Unpadded(n / 10), DigitChar(n % 10));
    }
  }

  /** A quotient below ten: a value under 10*p divided by p is a digit. */
  lemma DigitBound(n: nat, p: nat)
    requires p > 0 && n < 10 * p
    ensures n / p <= 9
  {
    DivMod(n, p);
    if n / p > 9 {
      Utils.MulMonotone(10, n / p, p);
    }
  }

  /**
   * The w digits of `n` taken the way the message formatter takes them: the
   * quotient by 10^(w-1) is the first digit, the remainder supplies the rest.
   */
  function Leading(n: nat, w: nat): (s: seq<char>)
    requires n < Pow10(w)
    ensures |s| == w && AllDigits(s)
  {
    if w == 0 then []
    else
      DigitBound(n, Pow10(w - 1));
      [DigitChar(n / Pow10(w - 1))] + Leading(n % Pow10(w - 1), w - 1)
  }

  /** Taking digits by leading quotients reads back as the number, so it is the zero-padded rendering. */
  lemma {:induction false} LeadingValue(n: nat, w: nat)
    requires n < Pow10(w)
    ensures Value(Leading(n, w)) == n && Leading(n, w) == ZeroPadded(n, w)
  {
    var s := Leading(n, w);
    if w > 0 {
      var p := Pow10(w - 1);
      LeadingValue(n % p, w - 1);
      DigitBound(n, p);
      assert s == [DigitChar(n / p)] + Leading(n % p, w - 1);
      assert s[1..] == Leading(n % p, w - 1);
      assert Value(s) == n / p * p + n % p;
      DivMod(n, p);
    }
    ZeroPaddedUnique(s);
  }
}
