/**
  The `formatTime` helper of the clock widget (src/App.jsx): each of the
  hours, minutes and seconds is rendered with `toString()`, left-padded
  with `"0"` to two characters, and the three fields are joined with `:`.
  `ParseTime` is the inverse used to state the round trip.
 */
module TimeFormat {
  import opened Wrappers

  /** The wall-clock fields the widget reads from a `Date`. */
  datatype Clock = Clock(hour: nat, minute: nat, second: nat)

  /** The ranges `getHours`, `getMinutes` and `getSeconds` return. */
  predicate Valid(c: Clock) {
    c.hour < 24 && c.minute < 60 && c.second < 60
  }

  predicate IsDigit(ch: char) {
    '0' <= ch <= '9'
  }

  predicate AllDigits(s: string) {
    forall i :: 0 <= i < |s| ==> IsDigit(s[i])
  }

  function DigitValue(ch: char): (d: nat)
    requires IsDigit(ch)
    ensures d < 10
  {
    ch as int - '0' as int
  }

  function DigitChar(d: nat): (ch: char)
    requires d < 10
    ensures IsDigit(ch)
    ensures DigitValue(ch) == d
  {
    ('0' as int + d) as char
  }

  /** The number a string of decimal digits denotes (leading zeros allowed). */
  function DigitsValue(s: string): nat
    requires AllDigits(s)
  {
    if s == [] then 0 else DigitsValue(s[..|s| - 1]) * 10 + DigitValue(s[|s| - 1])
  }

  /** `Number.prototype.toString()` on a non-negative integer: its canonical decimal form. */
  function NatToString(n: nat): (r: string)
    ensures AllDigits(r)
    ensures 1 <= |r|
    ensures |r| == 1 <==> n < 10
    ensures |r| <= 2 <==> n < 100
    ensures r[0] == '0' ==> n == 0
    decreases n
  {
    if n < 10 then [DigitChar(n)] else NatToString(n / 10) + [DigitChar(n % 10)]
  }

  /** The decimal form of `n` denotes `n`. */
  lemma {:induction false} NatToStringValue(n: nat)
    ensures DigitsValue(NatToString(n)) == n
    decreases n
  {
    if n >= 10 {
      NatToStringValue(n / 10);
      var r := NatToString(n);
      assert r[..|r| - 1] == NatToString(n / 10);
    }
  }

  /** The decimal form of a number below 100, digit by digit. */
  lemma NatToStringBelow100(n: nat)
    ensures n < 10 ==> NatToString(n) == [DigitChar(n)]
    ensures 10 <= n < 100 ==> NatToString(n) == [DigitChar(n / 10), DigitChar(n % 10)]
  {
  }

  /** `String.prototype.padStart(width, fill)` with a one-character fill. */
  function PadStart(s: string, width: nat, fill: char): (r: string)
    ensures |r| == if |s| < width then width else |s|
    ensures forall i :: 0 <= i < |s| ==> r[|r| - |s| + i] == s[i]
    ensures forall i :: 0 <= i < |r| - |s| ==> r[i] == fill
  {
    if |s| < width then seq(width - |s|, _ => fill) + s else s
  }

  /** One field of the clock: `n.toString().padStart(2, "0")`. */
  function TwoDigits(n: nat): (r: string)
    ensures n < 100 ==> r == [DigitChar(n / 10), DigitChar(n % 10)]
    ensures 100 <= n ==> r == NatToString(n)
  {
    var d := NatToString(n);
    NatToStringBelow100(n);
    PadStart(d, 2, '0')
  }

  /** `formatTime`: `HH:MM:SS`, each field the two decimal digits of its value. */
  function FormatTime(c: Clock): (r: string)
    ensures Valid(c) ==> r == [DigitChar(c.hour / 10), DigitChar(c.hour % 10), ':',
                               DigitChar(c.minute / 10), DigitChar(c.minute % 10), ':',
                               DigitChar(c.second / 10), DigitChar(c.second % 10)]
  {
    TwoDigits(c.hour) + ":" + TwoDigits(c.minute) + ":" + TwoDigits(c.second)
  }

  /** A formatted valid clock is 8 characters, `:` at indices 2 and 5 and digits elsewhere. */
  lemma FormatShape(c: Clock)
    requires Valid(c)
    ensures |FormatTime(c)| == 8
    ensures FormatTime(c)[2] == ':' && FormatTime(c)[5] == ':'
    ensures forall i :: 0 <= i < 8 && i != 2 && i != 5 ==> IsDigit(FormatTime(c)[i])
  {
  }

  /** The value of the two digits `s[i]`, `s[i + 1]`. */
  function FieldAt(s: string, i: nat): nat
    requires i + 1 < |s| && IsDigit(s[i]) && IsDigit(s[i + 1])
  {
    DigitValue(s[i]) * 10 + DigitValue(s[i + 1])
  }

  /** Reads an `HH:MM:SS` string back into a clock, rejecting anything `FormatTime` cannot produce. */
  function ParseTime(s: string): (r: Option<Clock>)
    ensures r.Some? ==> Valid(r.value)
    ensures r.Some? ==> |s| == 8 && s[2] == ':' && s[5] == ':'
  {
    if |s| == 8 && s[2] == ':' && s[5] == ':'
       && IsDigit(s[0]) && IsDigit(s[1]) && IsDigit(s[3]) && IsDigit(s[4]) && IsDigit(s[6]) && IsDigit(s[7])
    then
      var c := Clock(FieldAt(s, 0), FieldAt(s, 3), FieldAt(s, 6));
      if Valid(c) then Some(c) else None
    else None
  }

  /** Every valid clock survives formatting and parsing back. */
  lemma FormatThenParse(c: Clock)
    requires Valid(c)
    ensures ParseTime(FormatTime(c)) == Some(c)
  {
    var s := FormatTime(c);
    var h, m, x := TwoDigits(c.hour), TwoDigits(c.minute), TwoDigits(c.second);
    assert s[0] == h[0] && s[1] == h[1];
    assert s[3] == m[0] && s[4] == m[1];
    assert s[6] == x[0] && s[7] == x[1];
  }

  lemma DigitValueInjective(a: char, b: char)
    requires IsDigit(a) && IsDigit(b)
    requires DigitValue(a) == DigitValue(b)
    ensures a == b
  {
  }

  /** The two digits of a two-digit field are recovered by division and remainder by ten. */
  lemma FieldDigits(a: char, b: char)
    requires IsDigit(a) && IsDigit(b)
    ensures DigitChar((DigitValue(a) * 10 + DigitValue(b)) / 10) == a
    ensures DigitChar((DigitValue(a) * 10 + DigitValue(b)) % 10) == b
  {
    var n := DigitValue(a) * 10 + DigitValue(b);
    assert n / 10 == DigitValue(a) && n % 10 == DigitValue(b);
    DigitValueInjective(DigitChar(n / 10), a);
    DigitValueInjective(DigitChar(n % 10), b);
  }

  /** Every string `ParseTime` accepts is exactly what `FormatTime` prints for the parsed clock. */
  lemma ParseThenFormat(s: string)
    requires ParseTime(s).Some?
    ensures FormatTime(ParseTime(s).value) == s
  {
    FieldDigits(s[0], s[1]);
    FieldDigits(s[3], s[4]);
    FieldDigits(s[6], s[7]);
    assert s == [s[0], s[1], ':', s[3], s[4], ':', s[6], s[7]];
  }

  /** 1:02:03 is shown as `01:02:03`. */
  lemma FormatExample()
    ensures FormatTime(Clock(1, 2, 3)) == "01:02:03"
  {
    assert TwoDigits(1) == "01" by { assert NatToString(1) == "1"; }
    assert TwoDigits(2) == "02" by { assert NatToString(2) == "2"; }
    assert TwoDigits(3) == "03" by { assert NatToString(3) == "3"; }
  }
}
