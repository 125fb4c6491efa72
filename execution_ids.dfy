/** Execution ids: "ari-" followed by the UTC launch time as
    strftime('%Y%m%d-%H%M%S') writes it. */
module ExecutionIds {
  import opened Wrappers

  /** A UTC timestamp as datetime.utcnow() returns it. */
  datatype UtcTime = UtcTime(year: int, month: int, day: int, hour: int, minute: int, second: int, microsecond: int)

  /** The part of a timestamp that an execution id keeps: down to the second. */
  datatype Stamp = Stamp(year: int, month: int, day: int, hour: int, minute: int, second: int)

  predicate IsLeapYear(year: int) {
    year % 4 == 0 && (year % 100 != 0 || year % 400 == 0)
  }

  function DaysInMonth(year: int, month: int): int
    requires 1 <= month <= 12
  {
    if month == 2 then (if IsLeapYear(year) then 29 else 28)
    else if month == 4 || month == 6 || month == 9 || month == 11 then 30
    else 31
  }

  /** The range of Python's datetime. */
  predicate Valid(t: UtcTime) {
    && 1 <= t.year <= 9999
    && 1 <= t.month <= 12
    && 1 <= t.day <= DaysInMonth(t.year, t.month)
    && 0 <= t.hour < 24
    && 0 <= t.minute < 60
    && 0 <= t.second < 60
    && 0 <= t.microsecond < 1000000
  }

  function ToSecond(t: UtcTime): Stamp {
    Stamp(t.year, t.month, t.day, t.hour, t.minute, t.second)
  }

  function Pow10(n: nat): (r: nat)
    ensures r >= 1
  {
    if n == 0 then 1 else 10 * Pow10(n - 1)
  }

  predicate IsDigit(c: char) {
    '0' <= c <= '9'
  }

  predicate AllDigits(s: string) {
    forall i :: 0 <= i < |s| ==> IsDigit(s[i])
  }

  function DigitChar(d: nat): (c: char)
    requires d < 10
    ensures IsDigit(c) && c as int - '0' as int == d
  {
    ('0' as int + d) as char
  }

  /** `n` in decimal, zero-padded to exactly `width` digits. */
  function Digits(n: nat, width: nat): (r: string)
    requires n < Pow10(width)
    ensures |r| == width
    ensures AllDigits(r)
  {
    if width == 0 then
      ""
    else
      assert n / 10 < Pow10(width - 1);
      Digits(n / 10, width - 1) + [DigitChar(n % 10)]
  }

  /** The number a string of decimal digits denotes. */
  function DecimalValue(s: string): nat
    requires AllDigits(s)
  {
    if s == [] then 0
    else DecimalValue(s[..|s| - 1]) * 10 + (s[|s| - 1] as int - '0' as int)
  }

  /** Reading the digits back gives the number. */
  lemma {:induction false} DecimalValueDigits(n: nat, width: nat)
    requires n < Pow10(width)
    ensures DecimalValue(Digits(n, width)) == n
  {
    if width > 0 {
      assert n / 10 < Pow10(width - 1);
      var r := Digits(n, width);
      assert r[..|r| - 1] == Digits(n / 10, width - 1);
      DecimalValueDigits(n / 10, width - 1);
    }
  }

  /** Lines 210 and 290: f"ari-{utcnow().strftime('%Y%m%d-%H%M%S')}". */
  function FormatExecutionId(t: UtcTime): (id: string)
    requires Valid(t)
    ensures |id| == 19
    ensures id[..4] == "ari-" && id[12] == '-'
    ensures AllDigits(id[4..12]) && AllDigits(id[13..])
  {
    "ari-" + Digits(t.year, 4) + Digits(t.month, 2) + Digits(t.day, 2)
      + "-" + Digits(t.hour, 2) + Digits(t.minute, 2) + Digits(t.second, 2)
  }

  /** Reads the date and time fields back out of an execution id. */
  function ParseExecutionId(id: string): Option<Stamp> {
    if |id| == 19 && id[..4] == "ari-" && id[12] == '-' && AllDigits(id[4..12]) && AllDigits(id[13..]) then
      assert forall i :: 4 <= i < 12 ==> IsDigit(id[i]) by {
        assert forall i :: 4 <= i < 12 ==> id[i] == id[4..12][i - 4];
      }
      assert forall i :: 13 <= i < 19 ==> IsDigit(id[i]) by {
        assert forall i :: 13 <= i < 19 ==> id[i] == id[13..][i - 13];
      }
      Some(Stamp(DecimalValue(id[4..8]), DecimalValue(id[8..10]), DecimalValue(id[10..12]),
                 DecimalValue(id[13..15]), DecimalValue(id[15..17]), DecimalValue(id[17..19])))
    else
      None
  }

  /** Every field of the timestamp, down to the second, can be read back from its id. */
  lemma ParseFormat(t: UtcTime)
    requires Valid(t)
    ensures ParseExecutionId(FormatExecutionId(t)) == Some(ToSecond(t))
  {
    var id := FormatExecutionId(t);
    var y, mo, d := Digits(t.year, 4), Digits(t.month, 2), Digits(t.day, 2);
    var h, mi, se := Digits(t.hour, 2), Digits(t.minute, 2), Digits(t.second, 2);
    assert id == "ari-" + y + mo + d + "-" + h + mi + se;
    assert id[4..8] == Digits(t.year, 4);
    assert id[8..10] == Digits(t.month, 2);
    assert id[10..12] == Digits(t.day, 2);
    assert id[13..15] == Digits(t.hour, 2);
    assert id[15..17] == Digits(t.minute, 2);
    assert id[17..19] == Digits(t.second, 2);
    DecimalValueDigits(t.year, 4);
    DecimalValueDigits(t.month, 2);
    DecimalValueDigits(t.day, 2);
    DecimalValueDigits(t.hour, 2);
    DecimalValueDigits(t.minute, 2);
    DecimalValueDigits(t.second, 2);
  }

  /** Two launches get the same id exactly when they fall in the same UTC
      second: the sub-second part is dropped, so ids are not unique. */
  lemma SameIdIffSameSecond(t1: UtcTime, t2: UtcTime)
    requires Valid(t1) && Valid(t2)
    ensures FormatExecutionId(t1) == FormatExecutionId(t2) <==> ToSecond(t1) == ToSecond(t2)
  {
    ParseFormat(t1);
    ParseFormat(t2);
  }
}
