/**
 * The countdown of src/chess_clock.py: a whole number of seconds, set by
 * setTimer, decreased once per timer tick by __updateClock and shown on the
 * LCD in the M:SS form of __display.
 */
module Clock {
  import opened Wrappers

  predicate IsDigits(s: string) {
    forall i :: 0 <= i < |s| ==> '0' <= s[i] <= '9'
  }

  /** The decimal digits of n, most significant first, as Python's str gives them. */
  function NatToString(n: nat): (s: string)
    ensures |s| >= 1 && IsDigits(s)
    ensures n < 10 <==> |s| == 1
    decreases n
  {
    if n < 10 then [Digit(n)] else NatToString(n / 10) + [Digit(n % 10)]
  }

  function Digit(d: nat): (c: char)
    requires d < 10
    ensures '0' <= c <= '9'
  {
    ('0' as int + d) as char
  }

  function DigitValue(c: char): int {
    c as int - '0' as int
  }

  /** Python's str of an int: a minus sign for a negative value, then its digits. */
  function IntToString(i: int): string {
    if i < 0 then "-" + NatToString(-i) else NatToString(i)
  }

  /** The value of a string of decimal digits. */
  function ParseNat(s: string): nat
    requires IsDigits(s)
  {
    if s == [] then 0 else 10 * ParseNat(s[..|s| - 1]) + DigitValue(s[|s| - 1])
  }

  /** Python's int of a decimal text with an optional minus sign. */
  function ParseInt(s: string): Option<int> {
    if |s| >= 2 && s[0] == '-' && IsDigits(s[1..]) then Some(-(ParseNat(s[1..]) as int))
    else if |s| >= 1 && IsDigits(s) then Some(ParseNat(s))
    else None
  }

  /** The seconds field: one digit gets a leading zero. */
  function Seconds(sec: nat): string
    requires sec < 60
  {
    if sec >= 10 then NatToString(sec) else "0" + NatToString(sec)
  }

  /**
   * __display's text.  Python's // and % floor, and for the positive
   * divisor 60 Dafny's Euclidean / and % agree with them, so the seconds
   * field lies in 0..59 even when the time has run below zero.
   */
  function Display(t: int): string {
    IntToString(t / 60) + ":" + Seconds(t % 60)
  }

  /** Reads an M:SS text back: minutes, a colon, two digits of seconds. */
  function ParseDisplay(s: string): Option<int> {
    if |s| < 4 || s[|s| - 3] != ':' || !IsDigits(s[|s| - 2..]) then None
    else match ParseInt(s[..|s| - 3])
      case None => None
      case Some(m) => Some(m * 60 + 10 * DigitValue(s[|s| - 2]) + DigitValue(s[|s| - 1]))
  }

  lemma {:induction false} ParseNatToString(n: nat)
    ensures ParseNat(NatToString(n)) == n
    decreases n
  {
    var s := NatToString(n);
    if n < 10 {
      assert s[..|s| - 1] == [];
    } else {
      var d := NatToString(n / 10);
      assert s == d + [Digit(n % 10)];
      assert s[..|s| - 1] == d;
      ParseNatToString(n / 10);
    }
  }

  /** The seconds field is the two digits of sec, the tens digit at most 5. */
  lemma SecondsDigits(sec: nat)
    requires sec < 60
    ensures Seconds(sec) == [Digit(sec / 10), Digit(sec % 10)]
  {
    if sec >= 10 {
      assert NatToString(sec) == NatToString(sec / 10) + [Digit(sec % 10)];
    }
  }

  lemma ParseIntDigits(d: string)
    requires |d| >= 1 && IsDigits(d)
    ensures ParseInt("-" + d) == Some(-(ParseNat(d) as int))
    ensures ParseInt(d) == Some(ParseNat(d))
  {
    assert ("-" + d)[1..] == d;
    assert d[0] != '-';
  }

  /** Python's str of an int reads back as that int. */
  lemma ParseIntToString(i: int)
    ensures ParseInt(IntToString(i)) == Some(i)
  {
    if i < 0 {
      var d := NatToString(-i);
      ParseNatToString(-i);
      ParseIntDigits(d);
      assert IntToString(i) == "-" + d;
      assert ParseNat(d) == -i;
      assert ParseInt("-" + d) == Some(-(ParseNat(d) as int));
    } else {
      var d := NatToString(i);
      ParseNatToString(i);
      ParseIntDigits(d);
      assert IntToString(i) == d;
    }
  }

  /** An M:SS text whose minutes part reads as m reads back as m minutes and its seconds. */
  lemma ParseDisplayParts(head: string, m: int, d1: char, d0: char)
    requires ParseInt(head) == Some(m) && '0' <= d1 <= '9' && '0' <= d0 <= '9'
    ensures ParseDisplay(head + [':', d1, d0]) == Some(m * 60 + 10 * DigitValue(d1) + DigitValue(d0))
  {
    var s := head + [':', d1, d0];
    assert s[..|s| - 3] == head;
    assert s[|s| - 2..] == [d1, d0];
  }

  /** Reading the display back gives the time it shows, negative times included. */
  lemma ParseDisplayInverts(t: int)
    ensures ParseDisplay(Display(t)) == Some(t)
  {
    var m, sec := t / 60, t % 60;
    var d1, d0 := Digit(sec / 10), Digit(sec % 10);
    SecondsDigits(sec);
    ParseIntToString(m);
    assert Display(t) == IntToString(m) + [':', d1, d0];
    ParseDisplayParts(IntToString(m), m, d1, d0);
    assert 10 * DigitValue(d1) + DigitValue(d0) == sec;
  }

  /**
   * For a time not below zero: the minutes in plain digits, a colon, and
   * the two digits of the seconds, which are below 60.
   */
  lemma DisplayShape(t: int)
    requires t >= 0
    ensures var s := Display(t);
      && |s| >= 4 && s[..|s| - 3] == NatToString(t / 60) && s[|s| - 3] == ':'
      && '0' <= s[|s| - 2] <= '5' && '0' <= s[|s| - 1] <= '9'
      && 10 * DigitValue(s[|s| - 2]) + DigitValue(s[|s| - 1]) == t % 60
  {
    var s := Display(t);
    SecondsDigits(t % 60);
    assert s == NatToString(t / 60) + [':', Digit(t % 60 / 10), Digit(t % 60 % 10)];
  }

  class ChessClock {
    /** clock_time, in seconds. */
    var clockTime: int
    /** What the LCD shows; empty until __display first runs. */
    var shown: string

    constructor ()
      ensures clockTime == 0 && shown == ""
    {
      clockTime := 0;
      shown := "";
    }

    /** __display. */
    method UpdateDisplay()
      modifies this
      ensures clockTime == old(clockTime) && shown == Display(clockTime)
    {
      var minutes := clockTime / 60;
      var seconds := clockTime % 60;
      shown := IntToString(minutes) + ":" + (if seconds >= 10 then NatToString(seconds) else "0" + NatToString(seconds));
    }

    /** setTimer: a negative time is the ValueError, and nothing changes. */
    method SetTimer(time: int) returns (valueError: bool)
      modifies this
      ensures valueError <==> time < 0
      ensures valueError ==> clockTime == old(clockTime) && shown == old(shown)
      ensures !valueError ==> clockTime == time && shown == Display(time)
    {
      if time < 0 {
        return true;
      }
      clockTime := time;
      UpdateDisplay();
      return false;
    }

    /** __updateClock: one tick; reports whether signalTimeOver is emitted. */
    method UpdateClock() returns (timeOver: bool)
      modifies this
      ensures clockTime == old(clockTime) - 1 && shown == Display(clockTime)
      ensures timeOver <==> clockTime == 0
    {
      clockTime := clockTime - 1;
      UpdateDisplay();
      timeOver := clockTime == 0;
    }
  }
}
