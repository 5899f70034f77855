/**
 * `getCurrentDateTime`: the `YYYY-MM-DDTHH:MM` value the date field is filled with,
 * each field after the year padded to two digits with `padStart(2, '0')`.
 */
module DateTime {
  import opened Wrappers

  /** The local clock fields the `Date` object reports; `month` is `getMonth()`, from 0. */
  datatype LocalTime = LocalTime(year: int, month: nat, day: nat, hours: nat, minutes: nat)

  /** The ranges a real clock reading lies in; the year has four digits. */
  predicate Plausible(t: LocalTime)
  {
    1000 <= t.year <= 9999 && t.month < 12 && 1 <= t.day <= 31 && t.hours < 24 && t.minutes < 60
  }

  function DigitChar(d: nat): char
    requires d < 10
  {
    ('0' as int + d) as char
  }

  /** `String(n)` for a natural number: its decimal digits, without leading zeros. */
  function DecimalString(n: nat): string
  {
    if n < 10 then [DigitChar(n)] else DecimalString(n / 10) + [DigitChar(n % 10)]
  }

  /** `String(n)` for any integer. */
  function IntString(n: int): string
  {
    if n < 0 then "-" + DecimalString(-n) else DecimalString(n)
  }

  predicate AllDigits(s: string)
  {
    forall i :: 0 <= i < |s| ==> '0' <= s[i] <= '9'
  }

  /** The number a string of decimal digits denotes; the partner of `DecimalString`. */
  function DigitsValue(s: string): nat
    requires AllDigits(s)
  {
    if s == [] then 0 else DigitsValue(s[..|s| - 1]) * 10 + (s[|s| - 1] as int - '0' as int)
  }

  /** `padStart(2, '0')`. */
  function PadStart2(s: string): string
  {
    if |s| >= 2 then s else seq(2 - |s|, _ => '0') + s
  }

  function Pad2(n: nat): string
  {
    PadStart2(DecimalString(n))
  }

  /** `String(n)` is read back as n; it has one digit below 10 and two below 100. */
  lemma {:induction false} DecimalStringRoundTrip(n: nat)
    ensures AllDigits(DecimalString(n)) && DigitsValue(DecimalString(n)) == n
    ensures n < 10 ==> |DecimalString(n)| == 1
    ensures 10 <= n < 100 ==> |DecimalString(n)| == 2
    ensures 100 <= n < 1000 ==> |DecimalString(n)| == 3
    ensures 1000 <= n < 10000 ==> |DecimalString(n)| == 4
  {
    if n >= 10 {
      DecimalStringRoundTrip(n / 10);
      var s := DecimalString(n);
      assert s[..|s| - 1] == DecimalString(n / 10);
    }
  }

  /** For 0 to 99 the padded string has two digits and is read back as n. */
  lemma Pad2RoundTrip(n: nat)
    requires n < 100
    ensures |Pad2(n)| == 2 && AllDigits(Pad2(n)) && DigitsValue(Pad2(n)) == n
  {
    DecimalStringRoundTrip(n);
    if n < 10 {
      var d := DecimalString(n);
      assert Pad2(n) == ['0'] + d;
      assert Pad2(n)[..1] == ['0'];
      assert DigitsValue(['0']) == 0 by { assert ['0'][..0] == []; }
    }
  }

  /** The value `getCurrentDateTime` returns for a clock reading. */
  function CurrentDateTime(now: LocalTime): string
  {
    IntString(now.year) + "-" + Pad2(now.month + 1) + "-" + Pad2(now.day)
      + "T" + Pad2(now.hours) + ":" + Pad2(now.minutes)
  }

  /**
   * The layout the date field relies on: 16 characters, separators at 4, 7, 10 and 13,
   * hours at 11..13 and minutes at 14..16 (the ranges later selected in the field).
   */
  lemma CurrentDateTimeLayout(now: LocalTime)
    requires Plausible(now)
    ensures var s := CurrentDateTime(now);
      && |s| == 16
      && s[4] == '-' && s[7] == '-' && s[10] == 'T' && s[13] == ':'
      && s[..4] == DecimalString(now.year)
      && s[5..7] == Pad2(now.month + 1)
      && s[8..10] == Pad2(now.day)
      && s[11..13] == Pad2(now.hours)
      && s[14..16] == Pad2(now.minutes)
  {
    DecimalStringRoundTrip(now.year);
    Pad2RoundTrip(now.month + 1);
    Pad2RoundTrip(now.day);
    Pad2RoundTrip(now.hours);
    Pad2RoundTrip(now.minutes);
    FieldsLayout(DecimalString(now.year), Pad2(now.month + 1), Pad2(now.day), Pad2(now.hours), Pad2(now.minutes));
  }

  /** Where the pieces of a `YYYY-MM-DDTHH:MM` string lie, given their lengths. */
  lemma FieldsLayout(y: string, mo: string, d: string, h: string, mi: string)
    requires |y| == 4 && |mo| == 2 && |d| == 2 && |h| == 2 && |mi| == 2
    ensures var s := y + "-" + mo + "-" + d + "T" + h + ":" + mi;
      && |s| == 16
      && s[4] == '-' && s[7] == '-' && s[10] == 'T' && s[13] == ':'
      && s[..4] == y && s[5..7] == mo && s[8..10] == d && s[11..13] == h && s[14..16] == mi
  {
  }

  /** Reads a `YYYY-MM-DDTHH:MM` string back into clock fields. */
  function ParseDateTime(s: string): Option<LocalTime>
  {
    if |s| == 16 && s[4] == '-' && s[7] == '-' && s[10] == 'T' && s[13] == ':'
       && AllDigits(s[..4]) && AllDigits(s[5..7]) && AllDigits(s[8..10])
       && AllDigits(s[11..13]) && AllDigits(s[14..16]) && DigitsValue(s[5..7]) >= 1
    then Some(LocalTime(DigitsValue(s[..4]), DigitsValue(s[5..7]) - 1, DigitsValue(s[8..10]),
                        DigitsValue(s[11..13]), DigitsValue(s[14..16])))
    else None
  }

  /** The string determines the clock reading it was built from. */
  lemma CurrentDateTimeRoundTrip(now: LocalTime)
    requires Plausible(now)
    ensures ParseDateTime(CurrentDateTime(now)) == Some(now)
  {
    CurrentDateTimeLayout(now);
    DecimalStringRoundTrip(now.year);
    Pad2RoundTrip(now.month + 1);
    Pad2RoundTrip(now.day);
    Pad2RoundTrip(now.hours);
    Pad2RoundTrip(now.minutes);
  }
}
