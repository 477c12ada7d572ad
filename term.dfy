// The terminal's number parser (get_numeric_input, is_number) and the set-up
// of a run through a range of test cases (set_up_loop_run). A typed line is
// the terminal's 500-character buffer; a number is the field that starts at
// a fixed position of the line and runs to the NUL.

module Term {
  import opened CTypes
  import opened Decimal

  /** The number of test cases, and so the largest test case number. */
  const MaxTestCases: u8 := 62

  /** get_numeric_input rejects a field of this many characters. */
  const MaxCount: nat := 6

  /** The place values the parser multiplies the digits by, from the right. */
  const Mult: seq<nat> := [1, 10, 100, 1000, 10000, 100000]

  /** is_number: the character codes 0x30 to 0x39. */
  predicate IsNumber(c: char)
  {
    c as int >= 0x30 && c as int <= 0x39
  }

  /** A character is a number exactly when it is the character of a decimal digit. */
  lemma IsNumberDigits(c: char)
    ensures IsNumber(c) <==> exists d :: 0 <= d <= 9 && c == DigitChar(d)
  {
    if IsNumber(c) {
      var d := c as int - 0x30;
      assert c == DigitChar(d);
    }
  }

  /** Mult[k] is 10 to the power k. */
  lemma MultIsPow10(k: nat)
    requires k < |Mult|
    ensures Mult[k] == Pow10(k)
  {
    assert Pow10(1) == 10 && Pow10(2) == 100 && Pow10(3) == 1000;
    assert Pow10(4) == 10000 && Pow10(5) == 100000;
  }

  /**
   * The length of the field the first loop of get_numeric_input measures
   * from `ignore`: it runs over characters other than NUL, stops after
   * MaxCount of them, and stops at `pointerSize`, the value sizeof gives for
   * the line pointer.
   */
  function FieldLength(line: seq<char>, ignore: nat, pointerSize: nat): (n: nat)
    requires ignore + MaxCount < |line|
    ensures n <= MaxCount && (n == 0 || ignore + n <= pointerSize)
    ensures forall i :: ignore <= i < ignore + n ==> line[i] != '\0'
    ensures n == MaxCount || ignore + n >= pointerSize || line[ignore + n] == '\0'
  {
    Scanned(line, ignore, 0, pointerSize)
  }

  /** The field length once `count` characters from `ignore` are known to be in it. */
  function Scanned(line: seq<char>, ignore: nat, count: nat, pointerSize: nat): (n: nat)
    requires ignore + MaxCount < |line| && count <= MaxCount
    requires forall i :: ignore <= i < ignore + count ==> line[i] != '\0'
    requires count == 0 || ignore + count <= pointerSize
    ensures count <= n <= MaxCount && (n == 0 || ignore + n <= pointerSize)
    ensures forall i :: ignore <= i < ignore + n ==> line[i] != '\0'
    ensures n == MaxCount || ignore + n >= pointerSize || line[ignore + n] == '\0'
    decreases MaxCount - count
  {
    if line[ignore + count] != '\0' && count < MaxCount && ignore + count < pointerSize then
      Scanned(line, ignore, count + 1, pointerSize)
    else count
  }

  /** The field length is the only length that meets FieldLength's contract. */
  lemma FieldLengthUnique(line: seq<char>, ignore: nat, pointerSize: nat, m: nat)
    requires ignore + MaxCount < |line|
    requires m <= MaxCount && (m == 0 || ignore + m <= pointerSize)
    requires forall i :: ignore <= i < ignore + m ==> line[i] != '\0'
    requires m == MaxCount || ignore + m >= pointerSize || line[ignore + m] == '\0'
    ensures FieldLength(line, ignore, pointerSize) == m
  {
  }

  /**
   * What get_numeric_input returns: the value of the field when it is at
   * most five characters, all of them digits, and the value lies in
   * [min, max]; zero otherwise.
   */
  function NumericInput(line: seq<char>, ignore: nat, min: nat, max: nat, pointerSize: nat): (r: nat)
    requires ignore + MaxCount < |line|
    ensures r == 0 || min <= r <= max
    ensures r < Pow10(MaxCount - 1)
  {
    var n := FieldLength(line, ignore, pointerSize);
    var field := line[ignore..ignore + n];
    if n > MaxCount - 1 || !AllDigits(field) then 0
    else
      ValueBound(field);
      PowMonotone(n, MaxCount - 1);
      var v := Value(field);
      if v < min || v > max then 0 else v
  }

  /** A digit string of length w reads as less than 10^w. */
  lemma {:induction false} ValueBound(s: seq<char>)
    requires AllDigits(s)
    ensures Value(s) < Pow10(|s|)
  {
    if s != [] {
      ValueBound(s[1..]);
      var d, p := DigitOf(s[0]), Pow10(|s| - 1);
      Utils.MulMonotone(d, 9, p);
    }
  }

  /** Powers of ten grow with the exponent. */
  lemma {:induction false} PowMonotone(a: nat, b: nat)
    requires a <= b
    ensures Pow10(a) <= Pow10(b)
    decreases b
  {
    if a < b {
      PowMonotone(a, b - 1);
    }
  }

  /** Removing leading digits never raises the value. */
  lemma {:induction false} ValueSuffix(s: seq<char>, k: nat)
    requires AllDigits(s) && k <= |s|
    ensures Value(s[k..]) <= Value(s)
  {
    if k > 0 {
      assert s[k..] == s[1..][k - 1..];
      ValueSuffix(s[1..], k - 1);
      ValueTail(s);
    }
  }

  /** Dropping the leading digit never raises the value. */
  lemma {:induction false} ValueTail(s: seq<char>)
    requires AllDigits(s) && s != []
    ensures Value(s[1..]) <= Value(s)
  {
    var d, p := DigitOf(s[0]), Pow10(|s| - 1);
    assert 0 <= d * p;
    assert Value(s) == d * p + Value(s[1..]);
  }

  /**
   * One step of the parser's right-to-left pass over `field`: the digit
   * before the `count`-character-deep tail adds its low four bits times the
   * place value of the tail's length.
   */
  lemma PrependDigit(field: seq<char>, count: nat, k: nat)
    requires 0 < count <= |field| && IsNumber(field[count - 1]) && AllDigits(field[count..])
    requires k == |field| - count < |Mult|
    ensures AllDigits(field[count - 1..])
    ensures Value(field[count - 1..]) == Value(field[count..]) + (field[count - 1] as int % 16) * Mult[k]
  {
    MultIsPow10(k);
    assert field[count - 1..][1..] == field[count..];
  }

  /** NumericInput in terms of the measured field. */
  lemma NumericInputOfField(line: seq<char>, ignore: nat, min: nat, max: nat, pointerSize: nat, field: seq<char>)
    requires ignore + MaxCount < |line|
    requires field == line[ignore..ignore + FieldLength(line, ignore, pointerSize)]
    ensures |field| > MaxCount - 1 || !AllDigits(field) ==> NumericInput(line, ignore, min, max, pointerSize) == 0
    ensures |field| <= MaxCount - 1 && AllDigits(field) && (Value(field) < min || Value(field) > max)
            ==> NumericInput(line, ignore, min, max, pointerSize) == 0
    ensures |field| <= MaxCount - 1 && AllDigits(field) && min <= Value(field) <= max
            ==> NumericInput(line, ignore, min, max, pointerSize) == Value(field)
  {
  }

  /** A whole field of at most five digits reads as a value below 10^5. */
  lemma WholeField(field: seq<char>)
    requires |field| < MaxCount && AllDigits(field[0..])
    ensures AllDigits(field) && Value(field[0..]) == Value(field) < Pow10(MaxCount - 1)
  {
    assert field[0..] == field;
    ValueBound(field);
    PowMonotone(|field|, MaxCount - 1);
  }

  /**
   * get_numeric_input: measures the field from `ignore`, then reads it right
   * to left, multiplying each digit (its low four bits) by its place value.
   * A field of six characters, a character that is not a number, or a value
   * outside [min, max] gives zero.
   */
  method GetNumericInput(line: seq<char>, ignore: u8, min: u32, max: u32, pointerSize: u32) returns (r: u32)
    requires ignore as nat + MaxCount < |line|
    ensures r as nat == NumericInput(line, ignore as nat, min as nat, max as nat, pointerSize as nat)
  {
    var index: nat := ignore as nat;
    var count: nat := 0;
    while line[index] != '\0' && count < MaxCount && index < pointerSize as nat
      invariant count <= MaxCount && index == ignore as nat + count
      invariant count == 0 || index <= pointerSize as nat
      invariant forall i :: ignore as nat <= i < index ==> line[i] != '\0'
      decreases MaxCount - count
    {
      count := count + 1;
      index := index + 1;
    }
    FieldLengthUnique(line, ignore as nat, pointerSize as nat, count);
    ghost var field := line[ignore..index];
    NumericInputOfField(line, ignore as nat, min as nat, max as nat, pointerSize as nat, field);
    var total: nat := 0;
    if count > MaxCount - 1 {
      total := 0;
    } else {
      var silly;
      total, silly := FieldTotal(line, ignore as nat, count);
      if total < min as nat || total > max as nat || silly {
        total := 0;
      } else {
        assert field[0..] == field;
        WholeField(field);
      }
    }
    r := total as u32;
  }

  /**
   * The second loop of get_numeric_input, over the `length` characters from
   * `start`: right to left, each digit's low four bits times its place value
   * are added up; a character that is not a digit makes the field silly.
   */
  method FieldTotal(line: seq<char>, start: nat, length: nat) returns (total: nat, silly: bool)
    requires start + length <= |line| && length < MaxCount
    ensures silly <==> !AllDigits(line[start..start + length])
    ensures !silly ==> total == Value(line[start..start + length])
  {
    ghost var field := line[start..start + length];
    total, silly := 0, false;
    var count: nat := length;
    var i: int := start + length - 1;
    var multIndex: nat := 0;
    while count > 0 && !silly
      invariant count <= |field| && multIndex == |field| - count && i == start + count - 1
      invariant !silly ==> AllDigits(field[count..])
      invariant !silly ==> total == Value(field[count..])
      invariant silly ==> count < |field| && !IsNumber(field[count])
      decreases count
    {
      assert field[count - 1] == line[i];
      if !IsNumber(line[i]) {
        silly := true;
      } else {
        PrependDigit(field, count, multIndex);
        total := total + (line[i] as int % 16) * Mult[multIndex];
      }
      count := count - 1;
      i := i - 1;
      multIndex := multIndex + 1;
    }
    if silly {
      assert !('0' <= field[count] <= '9');
    } else {
      assert field[count..] == field;
    }
  }

  /**
   * A field of one to five digits that ends at a NUL before the pointer size
   * reads back as its value when that value lies in [min, max].
   */
  lemma ReadsBack(line: seq<char>, ignore: nat, digits: seq<char>, min: nat, max: nat, pointerSize: nat)
    requires ignore + MaxCount < |line|
    requires 1 <= |digits| < MaxCount && AllDigits(digits)
    requires line[ignore..ignore + |digits|] == digits && line[ignore + |digits|] == '\0'
    requires ignore + |digits| <= pointerSize
    requires min <= Value(digits) <= max
    ensures NumericInput(line, ignore, min, max, pointerSize) == Value(digits)
  {
    forall i | ignore <= i < ignore + |digits|
      ensures line[i] != '\0'
    {
      assert line[i] == digits[i - ignore];
    }
    FieldLengthUnique(line, ignore, pointerSize, |digits|);
  }

  /** A number below 100000, typed without leading zeros and in range, is what the parser returns. */
  lemma TypedNumberReadsBack(line: seq<char>, ignore: nat, v: nat, min: nat, max: nat, pointerSize: nat)
    requires ignore + MaxCount < |line| && v < 100000 && ignore + |Unpadded(v)| < |line|
    requires line[ignore..ignore + |Unpadded(v)|] == Unpadded(v) && line[ignore + |Unpadded(v)|] == '\0'
    requires ignore + |Unpadded(v)| <= pointerSize
    requires min <= v <= max
    ensures NumericInput(line, ignore, min, max, pointerSize) == v
  {
    UnpaddedValue(v);
    UnpaddedShort(v);
    ReadsBack(line, ignore, Unpadded(v), min, max, pointerSize);
  }

  /** A number below 100000 takes at most five characters. */
  lemma {:induction false} UnpaddedShort(v: nat)
    requires v < 100000
    ensures |Unpadded(v)| < MaxCount
  {
    if v >= 10 {
      UnpaddedWidth(v / 10, 4);
    }
  }

  /** A number below 10^w takes at most w characters, for w at least one. */
  lemma {:induction false} UnpaddedWidth(v: nat, w: nat)
    requires 1 <= w && v < Pow10(w)
    ensures |Unpadded(v)| <= w
  {
    if v >= 10 {
      assert v / 10 < Pow10(w - 1);
      UnpaddedWidth(v / 10, w - 1);
    }
  }

  /** Six characters other than NUL before the pointer size: the field is too long and the result is zero. */
  lemma TooLongIsZero(line: seq<char>, ignore: nat, min: nat, max: nat, pointerSize: nat)
    requires ignore + MaxCount < |line| && ignore + MaxCount <= pointerSize
    requires forall i :: ignore <= i < ignore + MaxCount ==> line[i] != '\0'
    ensures NumericInput(line, ignore, min, max, pointerSize) == 0
  {
    FieldLengthUnique(line, ignore, pointerSize, MaxCount);
  }

  /** A character other than a digit inside the field makes the result zero. */
  lemma NonDigitIsZero(line: seq<char>, ignore: nat, min: nat, max: nat, pointerSize: nat, k: nat)
    requires ignore + MaxCount < |line|
    requires k < FieldLength(line, ignore, pointerSize) && !IsNumber(line[ignore + k])
    ensures NumericInput(line, ignore, min, max, pointerSize) == 0
  {
    var n := FieldLength(line, ignore, pointerSize);
    assert line[ignore..ignore + n][k] == line[ignore + k];
  }

  /**
   * When the first number of a loop run has at least two characters, the
   * second field (from 5) lies inside it and is its tail, so its value never
   * exceeds the start: set_up_loop_run then always keeps the default stop.
   * With a one-character start, position 5 lies past the line's NUL and the
   * second field reads whatever an earlier, longer line left in the buffer.
   */
  lemma SecondNeverAfterFirst(line: seq<char>, pointerSize: nat)
    requires 5 + MaxCount < |line| && line[3] != '\0' && line[4] != '\0'
    ensures NumericInput(line, 5, 0, MaxTestCases as nat, pointerSize)
            <= NumericInput(line, 3, 0, MaxTestCases as nat, pointerSize)
            || NumericInput(line, 3, 0, MaxTestCases as nat, pointerSize) == 0
  {
    var n1 := FieldLength(line, 3, pointerSize);
    var first := NumericInput(line, 3, 0, MaxTestCases as nat, pointerSize);
    if first > 0 {
      var f1 := line[3..3 + n1];
      if n1 < 3 || pointerSize <= 5 || line[5] == '\0' {
        if n1 < 2 {
          assert 3 + n1 >= pointerSize;
        } else if n1 == 2 {
          assert pointerSize <= 5 || line[5] == '\0';
        }
        FieldLengthUnique(line, 5, pointerSize, 0);
        assert line[5..5] == [];
      } else {
        var m := n1 - 2;
        forall i | 5 <= i < 5 + m
          ensures line[i] != '\0'
        {
          assert line[i] == line[3 + (i - 3)];
        }
        FieldLengthUnique(line, 5, pointerSize, m);
        assert line[5..5 + m] == f1[2..];
        ValueSuffix(f1, 2);
      }
    }
  }

  /** The state term.c keeps for a loop run through the test cases. */
  class Terminal {
    var continuousLoop: bool
    var startTestCase: u8
    var stopTestCase: u8

    /** The static initial values: no loop run, both test case numbers zero. */
    constructor ()
      ensures !continuousLoop && startTestCase == 0 && stopTestCase == 0
    {
      continuousLoop := false;
      startTestCase := 0;
      stopTestCase := 0;
    }

    /**
     * set_up_loop_run: a first number from position 3 in 1..62 is the start,
     * and a second from position 5 above the start is the stop, else 62;
     * without a first number the run goes from 1 to 62. The loop run is
     * then switched on.
     */
    method SetUpLoopRun(line: seq<char>, pointerSize: u32)
      requires 5 + MaxCount < |line|
      modifies this
      ensures continuousLoop
      ensures var first := NumericInput(line, 3, 0, MaxTestCases as nat, pointerSize as nat);
              var second := NumericInput(line, 5, 0, MaxTestCases as nat, pointerSize as nat);
              if first > 0 then
                startTestCase as nat == first
                && stopTestCase as nat == (if second > first then second else MaxTestCases as nat)
              else startTestCase == 1 && stopTestCase == MaxTestCases
    {
      var input := GetNumericInput(line, 3, 0, MaxTestCases as u32, pointerSize);
      if input as u8 > 0 {
        startTestCase := input as u8;
        input := GetNumericInput(line, 5, 0, MaxTestCases as u32, pointerSize);
        if input as u8 > startTestCase {
          stopTestCase := input as u8;
        } else {
          stopTestCase := MaxTestCases;
        }
      } else {
        startTestCase := 1;
        stopTestCase := MaxTestCases;
      }
      continuousLoop := true;
    }
  }
}
