// The message formatter of messages_out.c: the VERBOSE/DEBUG filter and its
// two toggles (embedded build), the fixed-width decimal renderings build_dec,
// build_dec8/16/32 and dec2str, and decode_seconds (host build). What a
// message writes to the serial port is returned as a character sequence.

module MessagesOut {
  import opened CTypes
  import opened Decimal

  /** message_class of messages_out.h. */
  datatype MessageClass = Info | InfoNoCr | Log | Error | Debug | Results | Verbose | MaxClass

  /** The filter of MESS_OUT_message: VERBOSE messages need verbose mode, DEBUG messages debug mode. */
  predicate Suppressed(cls: MessageClass, verboseMode: bool, debugMode: bool)
  {
    (cls == Verbose && !verboseMode) || (cls == Debug && !debugMode)
  }

  /** Only VERBOSE and DEBUG messages can be filtered, and each by its own flag. */
  lemma SuppressedByOwnFlag(cls: MessageClass, verboseMode: bool, debugMode: bool)
    ensures Suppressed(cls, verboseMode, debugMode) ==> cls == Verbose || cls == Debug
    ensures cls == Verbose ==> (Suppressed(cls, verboseMode, debugMode) <==> !verboseMode)
    ensures cls == Debug ==> (Suppressed(cls, verboseMode, debugMode) <==> !debugMode)
    ensures cls != Verbose && cls != Debug ==> !Suppressed(cls, verboseMode, debugMode)
  {
  }

  /** The reporting modes of the embedded build. */
  class Messages {
    var debugMode: bool
    var verboseMode: bool

    /** MESS_OUT_initialise: debug off, verbose on. */
    constructor Initialise()
      ensures !debugMode && verboseMode
    {
      debugMode := false;
      verboseMode := true;
    }

    /**
     * MESS_OUT_message: what reaches the serial port. A message that passes
     * the filter is written, followed by a newline unless its class is
     * INFO_NOCR; a filtered one writes nothing. The modes do not change.
     */
    method Message(message: seq<char>, cls: MessageClass) returns (out: seq<char>)
      ensures Suppressed(cls, verboseMode, debugMode) ==> out == []
      ensures !Suppressed(cls, verboseMode, debugMode) ==>
        out == message + (if cls == InfoNoCr then [] else ['\n'])
    {
      if (cls == Verbose && !verboseMode) || (cls == Debug && !debugMode) {
        out := [];
      } else {
        out := message;
        if cls != InfoNoCr {
          out := out + ['\n'];
        }
      }
    }

    /** MESS_OUT_toggle_debug_mode: announces the new mode (an INFO message) and flips debug mode only. */
    method ToggleDebugMode() returns (out: seq<char>)
      modifies this
      ensures debugMode == !old(debugMode) && verboseMode == old(verboseMode)
      ensures out == (if old(debugMode) then "Debug mode OFF\n" else "Debug mode ON\n")
    {
      if !debugMode {
        out := Message("Debug mode ON", Info);
        debugMode := true;
      } else {
        out := Message("Debug mode OFF", Info);
        debugMode := false;
      }
    }

    /** MESS_OUT_toggle_verbose_mode: announces the new mode (an INFO message) and flips verbose mode only. */
    method ToggleVerboseMode() returns (out: seq<char>)
      modifies this
      ensures verboseMode == !old(verboseMode) && debugMode == old(debugMode)
      ensures out == (if old(verboseMode) then "Verbose mode OFF\n" else "Verbose mode ON\n")
    {
      if !verboseMode {
        out := Message("Verbose mode ON", Info);
        verboseMode := true;
      } else {
        out := Message("Verbose mode OFF", Info);
        verboseMode := false;
      }
    }
  }

  /** A toggle changes whether messages of its own class pass, and no other class. */
  lemma ToggleAffectsOneClass(cls: MessageClass, verboseMode: bool, debugMode: bool)
    ensures Suppressed(cls, !verboseMode, debugMode) != Suppressed(cls, verboseMode, debugMode) <==> cls == Verbose
    ensures Suppressed(cls, verboseMode, !debugMode) != Suppressed(cls, verboseMode, debugMode) <==> cls == Debug
  {
  }

  /** dec2str: the character of a digit 0..9; any other value gives NUL. */
  function Dec2Str(num: u32): (c: char)
    ensures num <= 9 ==> c == DigitChar(num)
    ensures num > 9 ==> c == '\0'
    ensures c != '\0' <==> num <= 9
  {
    match num
    case 0 => '0'
    case 1 => '1'
    case 2 => '2'
    case 3 => '3'
    case 4 => '4'
    case 5 => '5'
    case 6 => '6'
    case 7 => '7'
    case 8 => '8'
    case 9 => '9'
    case _ => '\0'
  }

  /**
   * A rendering whose first character is the leading quotient and whose
   * rest renders the remainder is the leading-quotient rendering.
   */
  lemma LeadingCons(s: seq<char>, n: nat, w: nat)
    requires 0 < w && n < Pow10(w) && |s| == w
    requires s[0] == Dec2Str(n / Pow10(w - 1))
    requires s[1..] == Leading(n % Pow10(w - 1), w - 1)
    ensures s == Leading(n, w)
  {
    DigitBound(n, Pow10(w - 1));
  }

  /** The 3 characters build_dec8 computes, by leading quotients, are the zero-padded rendering. */
  lemma Leading3(num: nat, s: seq<char>)
    requires num < 1000 && |s| == 3
    requires s[0] == Dec2Str(num / 100)
    requires s[1] == Dec2Str(num % 100 / 10)
    requires s[2] == Dec2Str(num % 100 % 10)
    ensures s == Leading(num, 3)
  {
    LeadingCons(s[2..], num % 100 % 10, 1);
    assert s[1..][1..] == s[2..];
    LeadingCons(s[1..], num % 100, 2);
    assert s[0..][1..] == s[1..];
    LeadingCons(s[0..], num, 3);
  }

  /** The 3 characters build_dec8 computes are the zero-padded rendering and read back as the value. */
  lemma Rendered3(num: nat, s: seq<char>)
    requires num < 1000 && |s| == 3
    requires s[0] == Dec2Str(num / 100)
    requires s[1] == Dec2Str(num % 100 / 10)
    requires s[2] == Dec2Str(num % 100 % 10)
    ensures AllDigits(s) && s == ZeroPadded(num, 3) && Value(s) == num
  {
    Leading3(num, s);
    LeadingValue(num, 3);
  }

  /** build_dec8: three zero-padded digits and a NUL; the digits read back as the value. */
  method BuildDec8(num: u8, numString: array<char>)
    requires numString.Length >= 4
    modifies numString
    ensures AllDigits(numString[..3]) && Value(numString[..3]) == num
    ensures numString[..3] == ZeroPadded(num, 3) && numString[3] == '\0'
    ensures forall i :: 4 <= i < numString.Length ==> numString[i] == old(numString[i])
  {
    var numDec: u8 := num;
    numString[0] := Dec2Str(numDec / 100);
    numDec := numDec % 100;
    numString[1] := Dec2Str(numDec / 10);
    numDec := numDec % 10;
    numString[2] := Dec2Str(numDec);
    numString[3] := '\0';
    Rendered3(num, numString[..3]);
  }

  /** The 5 characters build_dec16 computes, by leading quotients, are the zero-padded rendering. */
  lemma Leading5(num: nat, s: seq<char>)
    requires num < 100000 && |s| == 5
    requires s[0] == Dec2Str(num / 10000)
    requires s[1] == Dec2Str(num % 10000 / 1000)
    requires s[2] == Dec2Str(num % 10000 % 1000 / 100)
    requires s[3] == Dec2Str(num % 10000 % 1000 % 100 / 10)
    requires s[4] == Dec2Str(num % 10000 % 1000 % 100 % 10)
    ensures s == Leading(num, 5)
  {
    LeadingCons(s[4..], num % 10000 % 1000 % 100 % 10, 1);
    assert s[3..][1..] == s[4..];
    LeadingCons(s[3..], num % 10000 % 1000 % 100, 2);
    assert s[2..][1..] == s[3..];
    LeadingCons(s[2..], num % 10000 % 1000, 3);
    assert s[1..][1..] == s[2..];
    LeadingCons(s[1..], num % 10000, 4);
    assert s[0..][1..] == s[1..];
    LeadingCons(s[0..], num, 5);
  }

  /** The 5 characters build_dec16 computes are the zero-padded rendering and read back as the value. */
  lemma Rendered5(num: nat, s: seq<char>)
    requires num < 100000 && |s| == 5
    requires s[0] == Dec2Str(num / 10000)
    requires s[1] == Dec2Str(num % 10000 / 1000)
    requires s[2] == Dec2Str(num % 10000 % 1000 / 100)
    requires s[3] == Dec2Str(num % 10000 % 1000 % 100 / 10)
    requires s[4] == Dec2Str(num % 10000 % 1000 % 100 % 10)
    ensures AllDigits(s) && s == ZeroPadded(num, 5) && Value(s) == num
  {
    Leading5(num, s);
    LeadingValue(num, 5);
  }

  /** build_dec16: five zero-padded digits and a NUL; the digits read back as the value. */
  method BuildDec16(num: u16, numString: array<char>)
    requires numString.Length >= 6
    modifies numString
    ensures AllDigits(numString[..5]) && Value(numString[..5]) == num
    ensures numString[..5] == ZeroPadded(num, 5) && numString[5] == '\0'
    ensures forall i :: 6 <= i < numString.Length ==> numString[i] == old(numString[i])
  {
    var numDec: u16 := num;
    numString[0] := Dec2Str(numDec / 10000);
    numDec := numDec % 10000;
    numString[1] := Dec2Str(numDec / 1000);
    numDec := numDec % 1000;
    numString[2] := Dec2Str(numDec / 100);
    numDec := numDec % 100;
    numString[3] := Dec2Str(numDec / 10);
    numDec := numDec % 10;
    numString[4] := Dec2Str(numDec);
    numString[5] := '\0';
    Rendered5(num, numString[..5]);
  }

  /** The 10 characters build_dec32 computes, by leading quotients, are the zero-padded rendering. */
  lemma Leading10(num: nat, s: seq<char>)
    requires num < 10000000000 && |s| == 10
    requires s[0] == Dec2Str(num / 1000000000)
    requires s[1] == Dec2Str(num % 1000000000 / 100000000)
    requires s[2] == Dec2Str(num % 1000000000 % 100000000 / 10000000)
    requires s[3] == Dec2Str(num % 1000000000 % 100000000 % 10000000 / 1000000)
    requires s[4] == Dec2Str(num % 1000000000 % 100000000 % 10000000 % 1000000 / 100000)
    requires s[5] == Dec2Str(num % 1000000000 % 100000000 % 10000000 % 1000000 % 100000 / 10000)
    requires s[6] == Dec2Str(num % 1000000000 % 100000000 % 10000000 % 1000000 % 100000 % 10000 / 1000)
    requires s[7] == Dec2Str(num % 1000000000 % 100000000 % 10000000 % 1000000 % 100000 % 10000 % 1000 / 100)
    requires s[8] == Dec2Str(num % 1000000000 % 100000000 % 10000000 % 1000000 % 100000 % 10000 % 1000 % 100 / 10)
    requires s[9] == Dec2Str(num % 1000000000 % 100000000 % 10000000 % 1000000 % 100000 % 10000 % 1000 % 100 % 10)
    ensures s == Leading(num, 10)
  {
    Leading5(num % 1000000000 % 100000000 % 10000000 % 1000000 % 100000, s[5..]);
    LeadingHead5(num, s);
  }

  /** The 10 characters build_dec32 computes are the zero-padded rendering and read back as the value. */
  lemma Rendered10(num: nat, s: seq<char>)
    requires num < 10000000000 && |s| == 10
    requires s[0] == Dec2Str(num / 1000000000)
    requires s[1] == Dec2Str(num % 1000000000 / 100000000)
    requires s[2] == Dec2Str(num % 1000000000 % 100000000 / 10000000)
    requires s[3] == Dec2Str(num % 1000000000 % 100000000 % 10000000 / 1000000)
    requires s[4] == Dec2Str(num % 1000000000 % 100000000 % 10000000 % 1000000 / 100000)
    requires s[5] == Dec2Str(num % 1000000000 % 100000000 % 10000000 % 1000000 % 100000 / 10000)
    requires s[6] == Dec2Str(num % 1000000000 % 100000000 % 10000000 % 1000000 % 100000 % 10000 / 1000)
    requires s[7] == Dec2Str(num % 1000000000 % 100000000 % 10000000 % 1000000 % 100000 % 10000 % 1000 / 100)
    requires s[8] == Dec2Str(num % 1000000000 % 100000000 % 10000000 % 1000000 % 100000 % 10000 % 1000 % 100 / 10)
    requires s[9] == Dec2Str(num % 1000000000 % 100000000 % 10000000 % 1000000 % 100000 % 10000 % 1000 % 100 % 10)
    ensures AllDigits(s) && s == ZeroPadded(num, 10) && Value(s) == num
  {
    Leading10(num, s);
    LeadingValue(num, 10);
  }

  /** The first five characters of a ten-digit rendering, given that the last five render the remainder. */
  lemma LeadingHead5(num: nat, s: seq<char>)
    requires num < 10000000000 && |s| == 10
    requires s[0] == Dec2Str(num / 1000000000)
    requires s[1] == Dec2Str(num % 1000000000 / 100000000)
    requires s[2] == Dec2Str(num % 1000000000 % 100000000 / 10000000)
    requires s[3] == Dec2Str(num % 1000000000 % 100000000 % 10000000 / 1000000)
    requires s[4] == Dec2Str(num % 1000000000 % 100000000 % 10000000 % 1000000 / 100000)
    requires s[5..] == Leading(num % 1000000000 % 100000000 % 10000000 % 1000000 % 100000, 5)
    ensures s == Leading(num, 10)
  {
    var n9 := num % 1000000000;
    var n8 := n9 % 100000000;
    var n7 := n8 % 10000000;
    var n6 := n7 % 1000000;
    Pow10Table();
    assert s[4..][1..] == s[5..];
    LeadingCons(s[4..], n6, 6);
    assert s[3..][1..] == s[4..];
    LeadingCons(s[3..], n7, 7);
    assert s[2..][1..] == s[3..];
    LeadingCons(s[2..], n8, 8);
    assert s[1..][1..] == s[2..];
    LeadingCons(s[1..], n9, 9);
    assert s[0..][1..] == s[1..];
    LeadingCons(s[0..], num, 10);
  }

  /** The powers of ten up to the width of a 32-bit rendering. */
  lemma Pow10Table()
    ensures Pow10(5) == 100000 && Pow10(6) == 1000000 && Pow10(7) == 10000000
    ensures Pow10(8) == 100000000 && Pow10(9) == 1000000000 && Pow10(10) == 10000000000
  {
  }

  /** build_dec32: ten zero-padded digits and a NUL; the digits read back as the value. */
  method BuildDec32(num: u32, numString: array<char>)
    requires numString.Length >= 11
    modifies numString
    ensures AllDigits(numString[..10]) && Value(numString[..10]) == num
    ensures numString[..10] == ZeroPadded(num, 10) && numString[10] == '\0'
    ensures forall i :: 11 <= i < numString.Length ==> numString[i] == old(numString[i])
  {
    var numDec: u32 := num;
    numString[0] := Dec2Str(numDec / 1000000000);
    numDec := numDec % 1000000000;
    numString[1] := Dec2Str(numDec / 100000000);
    numDec := numDec % 100000000;
    numString[2] := Dec2Str(numDec / 10000000);
    numDec := numDec % 10000000;
    numString[3] := Dec2Str(numDec / 1000000);
    numDec := numDec % 1000000;
    numString[4] := Dec2Str(numDec / 100000);
    numDec := numDec % 100000;
    numString[5] := Dec2Str(numDec / 10000);
    numDec := numDec % 10000;
    numString[6] := Dec2Str(numDec / 1000);
    numDec := numDec % 1000;
    numString[7] := Dec2Str(numDec / 100);
    numDec := numDec % 100;
    numString[8] := Dec2Str(numDec / 10);
    numDec := numDec % 10;
    numString[9] := Dec2Str(numDec);
    numString[10] := '\0';
    Rendered10(num, numString[..10]);
  }

  /** How many digits build_dec writes for a value: 10 above 0xFFFF, 5 above 0xFF, else 3. */
  function DecWidth(num: u32): (w: nat)
    ensures w == 3 || w == 5 || w == 10
    ensures num < Pow10(w)
  {
    if num > 0xFFFF then 10 else if num > 0xFF then 5 else 3
  }

  /**
   * build_dec: the narrowest of the three renderings the value's type range
   * allows, so the digits read back as the value.
   */
  method BuildDec(num: u32, numString: array<char>)
    requires numString.Length > DecWidth(num)
    modifies numString
    ensures num > 0xFFFF ==> numString[..10] == ZeroPadded(num, 10) && numString[10] == '\0'
    ensures 0xFF < num <= 0xFFFF ==> numString[..5] == ZeroPadded(num, 5) && numString[5] == '\0'
    ensures num <= 0xFF ==> numString[..3] == ZeroPadded(num, 3) && numString[3] == '\0'
    ensures Value(numString[..DecWidth(num)]) == num
    ensures forall i :: DecWidth(num) + 1 <= i < numString.Length ==> numString[i] == old(numString[i])
  {
    if num > 0xFFFF {
      BuildDec32(num, numString);
    } else if num > 0xFF {
      BuildDec16(num, numString);
    } else {
      BuildDec8(num, numString);
    }
  }

  /** sprintf's "%02d" of a non-negative value: at least two digits, zero-padded. */
  function TwoDigits(n: nat): (s: seq<char>)
    ensures 2 <= |s| && AllDigits(s) && Value(s) == n
    ensures n < 100 ==> |s| == 2
    ensures n < 10 ==> s == ['0', DigitChar(n)]
    ensures n >= 10 ==> s[0] != '0'
  {
    if n < 10 then ZeroPaddedValue(n, 2); ZeroPadded(n, 2)
    else UnpaddedValue(n); UnpaddedLength(n); Unpadded(n)
  }

  /** The unpadded rendering of a two-digit number has two characters. */
  lemma UnpaddedLength(n: nat)
    requires 10 <= n
    ensures |Unpadded(n)| >= 2
    ensures n < 100 ==> |Unpadded(n)| == 2
  {
  }

  /**
   * decode_seconds: hours, minutes and seconds of a count of seconds joined
   * by ':' as "%02d:%02d:%02d". Minutes and seconds take two digits each and
   * the three fields read back as the count.
   */
  method DecodeSeconds(seconds: u32) returns (timeStr: seq<char>)
    ensures |timeStr| >= 8 && timeStr[|timeStr| - 6] == ':' && timeStr[|timeStr| - 3] == ':'
    ensures var n := |timeStr|;
      AllDigits(timeStr[..n - 6]) && AllDigits(timeStr[n - 5..n - 3]) && AllDigits(timeStr[n - 2..])
    ensures var n := |timeStr|;
      AllDigits(timeStr[..n - 6]) && AllDigits(timeStr[n - 5..n - 3]) && AllDigits(timeStr[n - 2..]) &&
      Value(timeStr[n - 5..n - 3]) < 60 && Value(timeStr[n - 2..]) < 60 &&
      Value(timeStr[..n - 6]) * 3600 + Value(timeStr[n - 5..n - 3]) * 60 + Value(timeStr[n - 2..]) == seconds
    ensures var hours, h := seconds / 3600, timeStr[..|timeStr| - 6];
      (hours < 10 ==> h == ['0', DigitChar(hours)]) &&
      (hours >= 10 ==> h[0] != '0') &&
      (hours < 100 ==> |h| == 2)
  {
    var secs := seconds;
    var hours := secs / 3600;
    var hourStr := TwoDigits(hours) + [':'];
    secs := secs % 3600;
    var mins := secs / 60;
    var minsStr := TwoDigits(mins) + [':'];
    secs := secs % 60;
    var secsStr := TwoDigits(secs);
    timeStr := hourStr + minsStr + secsStr;
    var n := |timeStr|;
    assert timeStr[..n - 6] == TwoDigits(hours);
    assert timeStr[n - 5..n - 3] == TwoDigits(mins);
    assert timeStr[n - 2..] == TwoDigits(secs);
  }
}
