// Helpers of utils.c: division by repeated addition (the target compiler had
// no divide) and a NUL-terminated string copy.

module Utils {
  import opened CTypes

  /** `struct UTL_div_type` (utils.h:25-29). */
  datatype DivResult = DivResult(quotient: u32, remainder: u32)

  /**
   * What UTL_divide leaves in its out-struct. With a zero divisor both fields
   * are cleared. With a dividend below the divisor the do-while still runs once,
   * so the quotient is 1 and the remainder keeps whatever `prior` held.
   * Otherwise it is the usual quotient and remainder.
   */
  function DivideSpec(number: u32, denom: u32, prior: DivResult): (r: DivResult)
    ensures denom == 0 ==> r == DivResult(0, 0)
    ensures 0 < denom <= number ==> r.quotient * denom + r.remainder == number && r.remainder < denom
    ensures 0 < denom && number < denom ==> r.quotient == 1 && r.remainder == prior.remainder
  {
    if denom == 0 then DivResult(0, 0)
    else if number < denom then DivResult(1, prior.remainder)
    else DivResult(number / denom, number % denom)
  }

  /** The sanity-check branch of UTL_divide fires exactly when the dividend is below a non-zero divisor. */
  predicate DivideSanityFails(number: u32, denom: u32)
  {
    0 < denom && number < denom
  }

  /**
   * The loop test of UTL_divide as written: `(sum+denom) <= number` is evaluated
   * in U32 arithmetic, so the sum wraps.
   */
  predicate DivideContinuesAsWritten(sum: u32, denom: u32, number: u32)
  {
    Wrap32(sum + denom) <= number
  }

  /** The loop test as intended: the next multiple of the divisor still fits in the dividend. */
  predicate DivideContinues(sum: u32, denom: u32, number: u32)
  {
    sum + denom <= number
  }

  /** Where no wrap occurs, the two loop tests agree. */
  lemma DivideTestsAgreeWithoutWrap(sum: u32, denom: u32, number: u32)
    requires sum + denom < TWO_32
    ensures DivideContinuesAsWritten(sum, denom, number) == DivideContinues(sum, denom, number)
  {
  }

  /**
   * UTL_divide with the loop test evaluated without wrap-around. `prior` is the
   * caller's out-struct before the call; `sanityError` is the branch that logs
   * the failed sanity check and leaves the remainder unwritten.
   */
  method Divide(number: u32, denom: u32, prior: DivResult) returns (r: DivResult, sanityError: bool)
    ensures r == DivideSpec(number, denom, prior)
    ensures sanityError == DivideSanityFails(number, denom)
  {
    var sum: u32 := 0;
    var quotient: u32 := 0;
    var remainder := prior.remainder;
    sanityError := false;
    if denom > 0 {
      sum := denom;
      quotient := 1;
      while DivideContinues(sum, denom, number)
        invariant 1 <= quotient && sum == quotient * denom
        invariant sum <= number || quotient == 1
        decreases number - sum
      {
        sum := sum + denom;
        quotient := quotient + 1;
      }
      if sum == number {
        remainder := 0;
        DivisionByRepeatedAddition(number, denom, quotient);
      } else if sum < number {
        remainder := number - sum;
        DivisionByRepeatedAddition(number, denom, quotient);
      } else {
        sanityError := true;
      }
    } else {
      quotient := 0;
      remainder := 0;
    }
    r := DivResult(quotient, remainder);
  }

  // ----------------------------------------------------------------------
  // UTL_divide as written: the sum, the quotient and the loop test in U32

  /**
   * After k passes of the do-while the sum is k * denom in U32, and the loop
   * test adds one more divisor: the loop ends after pass k when that wrapped
   * sum passes the dividend.
   */
  predicate ExitsAfter(number: u32, denom: u32, k: nat)
  {
    Wrap32((k + 1) * denom) > number
  }

  /**
   * Nothing the written loop computes wraps: the larger of dividend and
   * divisor, plus one more divisor, stays below 2^32.
   */
  predicate NoWrap(number: u32, denom: u32)
  {
    (if number < denom then denom else number) + denom < TWO_32
  }

  /** The remainder test after the loop, for a loop that stopped with `sum` and `quotient`. */
  function Settle(number: u32, sum: u32, quotient: u32, prior: DivResult): (r: DivResult)
    ensures r.quotient == quotient
    ensures sum <= number ==> sum + r.remainder == number
    ensures sum > number ==> r.remainder == prior.remainder
  {
    if sum == number then DivResult(quotient, 0)
    else if sum < number then DivResult(quotient, number - sum)
    else DivResult(quotient, prior.remainder)
  }

  /**
   * UTL_divide as written: `sum += denom`, `quotient++` and the test
   * `(sum+denom) <= number` all wrap in U32, so the loop need not end.
   * `fuel` bounds the passes the model makes after the first: `stopped` says
   * whether the loop ended within them. When it did, `passes` is the first
   * pass after which the written test fails, and the result is the remainder
   * test on the wrapped sum. When nothing wraps and the fuel covers the
   * quotient, this is exactly the intended division.
   */
  method DivideAsWritten(number: u32, denom: u32, prior: DivResult, fuel: nat)
    returns (r: DivResult, sanityError: bool, passes: nat, stopped: bool)
    ensures denom == 0 ==> stopped && passes == 0 && r == DivResult(0, 0) && !sanityError
    ensures denom > 0 ==> 1 <= passes <= fuel + 1
    ensures denom > 0 ==> forall k :: 1 <= k < passes ==> !ExitsAfter(number, denom, k)
    ensures denom > 0 && stopped ==>
              && ExitsAfter(number, denom, passes)
              && r == Settle(number, Wrap32(passes * denom), Wrap32(passes), prior)
              && sanityError == (Wrap32(passes * denom) > number)
    ensures denom > 0 && !stopped ==> passes == fuel + 1 && !ExitsAfter(number, denom, passes)
    ensures denom > 0 && NoWrap(number, denom) && number / denom <= fuel ==>
              stopped && r == DivideSpec(number, denom, prior) && sanityError == DivideSanityFails(number, denom)
  {
    sanityError := false;
    if denom == 0 {
      r, passes, stopped := DivResult(0, 0), 0, true;
      return;
    }
    var sum: u32 := denom;
    var quotient: u32 := 1;
    passes := 1;
    WrittenPass(number, denom, 0);
    while passes <= fuel && DivideContinuesAsWritten(sum, denom, number)
      invariant 1 <= passes <= fuel + 1
      invariant sum == Wrap32(passes * denom) && quotient == Wrap32(passes)
      invariant DivideContinuesAsWritten(sum, denom, number) == !ExitsAfter(number, denom, passes)
      invariant forall k :: 1 <= k < passes ==> !ExitsAfter(number, denom, k)
      decreases fuel + 1 - passes
    {
      WrittenPass(number, denom, passes);
      sum := Wrap32(sum + denom);
      quotient := Wrap32(quotient + 1);
      passes := passes + 1;
    }
    stopped := !DivideContinuesAsWritten(sum, denom, number);
    r := Settle(number, sum, quotient, prior);
    sanityError := stopped && sum > number;
    if NoWrap(number, denom) && number / denom <= fuel {
      WrittenLoopAgrees(number, denom, prior, fuel, passes, stopped);
    }
  }

  /** The state after pass p + 1 follows from the state after pass p by one U32 addition each. */
  lemma WrittenPass(number: u32, denom: u32, p: nat)
    ensures Wrap32(Wrap32(p * denom) + denom) == Wrap32((p + 1) * denom)
    ensures Wrap32(Wrap32(p) + 1) == Wrap32(p + 1)
    ensures DivideContinuesAsWritten(Wrap32((p + 1) * denom), denom, number) == !ExitsAfter(number, denom, p + 1)
  {
    WrittenSumStep(p, denom);
    WrittenSumStep(p + 1, denom);
    WrapAdd(p, 1, TWO_32);
  }

  /**
   * A loop that has made `passes` passes without an earlier exit, and either
   * stopped after the last or ran out of budget, made exactly the passes the
   * no-wrap lemma counts, when that count is within the budget.
   */
  lemma WrittenLoopAgrees(number: u32, denom: u32, prior: DivResult, fuel: nat, passes: nat, stopped: bool)
    requires 0 < denom && NoWrap(number, denom) && number / denom <= fuel
    requires 1 <= passes <= fuel + 1
    requires forall k :: 1 <= k < passes ==> !ExitsAfter(number, denom, k)
    requires stopped ==> ExitsAfter(number, denom, passes)
    requires !stopped ==> passes == fuel + 1 && !ExitsAfter(number, denom, passes)
    ensures stopped
    ensures Settle(number, Wrap32(passes * denom), Wrap32(passes), prior) == DivideSpec(number, denom, prior)
    ensures (Wrap32(passes * denom) > number) == DivideSanityFails(number, denom)
  {
    var k := WrittenLoopWithoutWrap(number, denom, prior);
    assert k <= passes;
    assert passes <= k;
  }

  /** One more pass: adding the divisor to the wrapped sum of p passes is the wrapped sum of p + 1. */
  lemma WrittenSumStep(p: nat, denom: u32)
    ensures Wrap32(Wrap32(p * denom) + denom) == Wrap32((p + 1) * denom)
  {
    var a := p * denom;
    WrapAdd(a, denom, TWO_32);
    MulSucc(p, denom);
  }

  /** One more factor adds the multiplicand once. */
  lemma MulSucc(p: nat, d: nat)
    ensures p * d + d == (p + 1) * d
  {
  }

  /**
   * When nothing wraps the written loop stops after max(1, number / denom)
   * passes and leaves the intended quotient, remainder and sanity verdict.
   */
  lemma WrittenLoopWithoutWrap(number: u32, denom: u32, prior: DivResult) returns (passes: nat)
    requires 0 < denom && NoWrap(number, denom)
    ensures passes == (if number < denom then 1 else number / denom)
    ensures 1 <= passes && ExitsAfter(number, denom, passes)
    ensures forall k :: 1 <= k < passes ==> !ExitsAfter(number, denom, k)
    ensures Settle(number, Wrap32(passes * denom), Wrap32(passes), prior) == DivideSpec(number, denom, prior)
    ensures (Wrap32(passes * denom) > number) == DivideSanityFails(number, denom)
  {
    if number < denom {
      passes := 1;
      assert (passes + 1) * denom == 2 * denom;
    } else {
      passes := WrittenLoopExact(number, denom);
      forall k | 1 <= k < passes
        ensures !ExitsAfter(number, denom, k)
      {
        WrittenLoopContinues(number, denom, k);
      }
    }
  }

  /** A dividend at least the divisor: the written loop exits after number / denom passes, on the exact sum. */
  lemma WrittenLoopExact(number: u32, denom: u32) returns (passes: nat)
    requires 0 < denom <= number && number + denom < TWO_32
    ensures passes == number / denom && 1 <= passes
    ensures ExitsAfter(number, denom, passes)
    ensures Wrap32(passes * denom) == passes * denom <= number
    ensures number - passes * denom == number % denom
  {
    passes := number / denom;
    var p := passes * denom;
    assert number == p + number % denom;
    assert (passes + 1) * denom == p + denom;
  }

  /** Before number / denom passes the next multiple still fits, so the written test holds. */
  lemma WrittenLoopContinues(number: u32, denom: u32, k: nat)
    requires 0 < denom <= number && number + denom < TWO_32 && k < number / denom
    ensures !ExitsAfter(number, denom, k)
  {
    MulMonotone(k + 1, number / denom, denom);
    assert (number / denom) * denom <= number;
  }

  /**
   * With the largest dividend the written test never fails, whatever the
   * divisor: UTL_divide(0xFFFFFFFF, d) does not return.
   */
  lemma DivideAsWrittenNeverStops(denom: u32, k: nat)
    ensures !ExitsAfter(0xFFFF_FFFF, denom, k)
  {
  }

  /**
   * A divisor that divides 2^32 (a power of two) keeps every wrapped sum a
   * multiple of itself below 2^32, so at most 2^32 - denom: once the dividend
   * is within one divisor of 2^32 the written loop never ends.
   * UTL_divide(0xFFFFFFF0, 0x20) is one such call.
   */
  lemma PowerOfTwoDivisorNeverStops(number: u32, denom: u32, k: nat)
    requires 0 < denom && TWO_32 % denom == 0 && TWO_32 <= number + denom
    ensures !ExitsAfter(number, denom, k)
  {
    var d := TWO_32 / denom;
    assert d * denom == TWO_32;
    var m := (k + 1) * denom;
    var q := m / TWO_32;
    var w := m % TWO_32;
    assert m == q * TWO_32 + w && 0 <= w < TWO_32;
    var c := (k + 1) - q * d;
    assert w == c * denom by {
      assert q * TWO_32 == (q * d) * denom;
      assert m - q * TWO_32 == (k + 1) * denom - (q * d) * denom == ((k + 1) - q * d) * denom;
    }
    MulCancel(0, c, denom);
    assert (d - 1) * denom + denom == TWO_32;
    MulCancel(c, d - 1, denom);
    MulMonotone(c, d - 1, denom);
    assert (d - 1) * denom == TWO_32 - denom;
  }

  /**
   * A dividend below a divisor of 2^31: the written loop wraps the sum to 0 on
   * its test, runs a second pass and stops with quotient 2 and the dividend as
   * remainder, with no sanity error; the intended result is quotient 1 with
   * the sanity error.
   */
  lemma DivideAsWrittenMisdivides(prior: DivResult)
    ensures !ExitsAfter(5, 0x8000_0000, 1) && ExitsAfter(5, 0x8000_0000, 2)
    ensures Settle(5, Wrap32(2 * 0x8000_0000), Wrap32(2), prior) == DivResult(2, 5)
    ensures Wrap32(2 * 0x8000_0000) <= 5
    ensures DivideSpec(5, 0x8000_0000, prior) == DivResult(1, prior.remainder) && DivideSanityFails(5, 0x8000_0000)
  {
  }

  /** When the repeated addition stops with `q` multiples not exceeding `number`, `q` is the quotient. */
  lemma DivisionByRepeatedAddition(number: nat, denom: nat, q: nat)
    requires 0 < denom && q * denom <= number < (q + 1) * denom
    ensures q == number / denom && number - q * denom == number % denom
  {
    var r := number - q * denom;
    assert number == q * denom + r && 0 <= r < denom;
    LemmaDivUnique(number, denom, q, r);
  }

  lemma LemmaDivUnique(n: nat, d: nat, q: nat, r: nat)
    requires 0 < d && n == q * d + r && r < d
    ensures q == n / d && r == n % d
  {
    var q0, r0 := n / d, n % d;
    assert n == q0 * d + r0 && 0 <= r0 < d;
    if q0 < q {
      MulMonotone(q0 + 1, q, d);
      assert false;
    } else if q < q0 {
      MulMonotone(q + 1, q0, d);
      assert false;
    }
  }

  /** A positive factor can be cancelled from a strict inequality. */
  lemma MulCancel(a: int, b: int, m: nat)
    requires 0 < m && a * m < b * m + m
    ensures a <= b
  {
    if a > b {
      MulMonotone(0, a - b - 1, m);
    }
  }

  lemma MulMonotone(a: nat, b: nat, d: nat)
    requires a <= b
    ensures a * d <= b * d
  {
  }

  /** A sum taken step by step modulo m is the whole sum modulo m. */
  lemma WrapAdd(a: nat, b: nat, m: nat)
    requires m > 0
    ensures (a % m + b) % m == (a + b) % m
  {
    var q := a / m;
    assert a == q * m + a % m;
    assert a % m + b + q * m == a + b;
    ModMultiple(a % m + b, q, m);
  }

  lemma ModMultiple(x: nat, q: nat, m: nat)
    requires m > 0
    ensures (x + q * m) % m == x % m
  {
    var d := x / m;
    assert (d + q) * m == d * m + q * m;
    LemmaDivUnique(x + q * m, m, d + q, x % m);
  }

  /** Index of the first NUL in `s`, which must contain one. */
  function NulIndex(s: seq<char>): (n: nat)
    requires '\0' in s
    ensures n < |s| && s[n] == '\0' && '\0' !in s[..n]
  {
    if s[0] == '\0' then 0 else NulIndex(s[1..]) + 1
  }

  /**
   * UTL_string_copy: copies `src` up to and including its first NUL into `dest`;
   * cells after the copied NUL are left as they were.
   */
  method StringCopy(dest: array<char>, src: seq<char>)
    requires '\0' in src && NulIndex(src) < dest.Length
    modifies dest
    ensures dest[..NulIndex(src) + 1] == src[..NulIndex(src) + 1]
    ensures dest[NulIndex(src) + 1..] == old(dest[NulIndex(src) + 1..])
  {
    var n := NulIndex(src);
    var i := 0;
    var c := src[0];
    dest[0] := c;
    while c != '\0'
      invariant 0 <= i <= n
      invariant c == src[i]
      invariant dest[..i + 1] == src[..i + 1]
      invariant forall j :: i < j < dest.Length ==> dest[j] == old(dest[j])
      decreases n - i
    {
      i := i + 1;
      c := src[i];
      dest[i] := c;
    }
    assert dest[n + 1..] == old(dest[n + 1..]);
  }
}
