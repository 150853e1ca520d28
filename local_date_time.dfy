/** A wall-clock reading (`java.time.LocalDateTime`) and its ISO text form
    as `toString` writes it: `yyyy-MM-ddTHH:mm`, then `:ss` only when the
    seconds or the nanoseconds are non-zero, then a fraction of 3, 6 or 9
    digits only when the nanoseconds are non-zero. */
module LocalDateTime {
  import Text

  datatype DateTime = DateTime(year: int, month: int, day: int, hour: int, minute: int, second: int, nano: int)

  /** A reading whose year has four digits (the form `toString` writes
      without a sign). */
  predicate Valid(d: DateTime)
  {
    1000 <= d.year <= 9999 && 1 <= d.month <= 12 && 1 <= d.day <= 31
    && 0 <= d.hour < 24 && 0 <= d.minute < 60 && 0 <= d.second < 60 && 0 <= d.nano < 1000000000
  }

  /** The last `width` decimal digits of `n`, with leading zeros. */
  function Padded(n: nat, width: nat): (s: string)
    ensures |s| == width
    ensures forall i :: 0 <= i < |s| ==> Text.IsDigit(s[i])
  {
    if width == 0 then "" else Padded(n / 10, width - 1) + [Text.DigitChar(n % 10)]
  }

  /** The fraction of a second: none, or milli-, micro- or nanoseconds. */
  function Fraction(nano: nat): (s: string)
    ensures nano == 0 <==> s == ""
    ensures s != "" ==> s[0] == '.' && (|s| == 4 || |s| == 7 || |s| == 10)
  {
    if nano == 0 then ""
    else if nano % 1000000 == 0 then "." + Padded(nano / 1000000, 3)
    else if nano % 1000 == 0 then "." + Padded(nano / 1000, 6)
    else "." + Padded(nano, 9)
  }

  /** The date and the hour and minute: `yyyy-MM-ddTHH:mm`. */
  function DateAndMinute(d: DateTime): (s: string)
    requires Valid(d)
    ensures |s| == 16
  {
    Padded(d.year, 4) + "-" + Padded(d.month, 2) + "-" + Padded(d.day, 2) + "T"
    + Padded(d.hour, 2) + ":" + Padded(d.minute, 2)
  }

  /** `LocalDateTime.toString()`. */
  function IsoString(d: DateTime): (s: string)
    requires Valid(d)
    // the seconds are left out exactly at a whole minute
    ensures |s| == 16 <==> d.second == 0 && d.nano == 0
    ensures |s| != 16 ==> |s| >= 19
    ensures s[..16] == DateAndMinute(d)
  {
    var secs := if d.second > 0 || d.nano > 0 then ":" + Padded(d.second, 2) + Fraction(d.nano) else "";
    DateAndMinute(d) + secs
  }

  /** Off a whole minute the text is the date, the time to the second, and
      the fraction. */
  lemma IsoStringWithSeconds(d: DateTime)
    requires Valid(d) && (d.second > 0 || d.nano > 0)
    ensures IsoString(d) == Padded(d.year, 4) + "-" + Padded(d.month, 2) + "-" + Padded(d.day, 2) + "T"
                            + Padded(d.hour, 2) + ":" + Padded(d.minute, 2) + ":" + Padded(d.second, 2)
                            + Fraction(d.nano)
  {
  }
}
