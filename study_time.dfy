/**
 * `formatTime` of the study section: the stopwatch's milliseconds shown as
 * `HH:MM:SS`, each field the decimal text of an integer padded on the left with
 * "0" to at least two characters. `Math.floor` on a positive divisor is Dafny's
 * `/`; JavaScript's `%` truncates towards zero and is `JsRem`.
 */
module StudySectionTime {
  import opened JsBuiltins

  /** The three displayed quantities. */
  datatype ClockFields = ClockFields(hours: int, minutes: int, seconds: int)

  /** totalSec = floor(ms/1000); hours = floor(totalSec/3600);
      minutes = floor((totalSec % 3600)/60); seconds = totalSec % 60. */
  function Fields(ms: int): (r: ClockFields)
    ensures ms >= 0 ==> r.hours >= 0 && 0 <= r.minutes < 60 && 0 <= r.seconds < 60
  {
    var totalSec := ms / 1000;
    ClockFields(totalSec / 3600, JsRem(totalSec, 3600) / 60, JsRem(totalSec, 60))
  }

  function FormatTime(ms: int): (r: string)
    ensures |r| >= 8
  {
    var f := Fields(ms);
    Pad2(f.hours) + ":" + Pad2(f.minutes) + ":" + Pad2(f.seconds)
  }

  /** For a non-negative time the fields are whole hours, minutes below 60 and
      seconds below 60, and together they make up the whole seconds. */
  lemma FieldsAddUp(ms: int)
    requires ms >= 0
    ensures var f := Fields(ms);
      f.hours >= 0 && 0 <= f.minutes < 60 && 0 <= f.seconds < 60 &&
      f.hours * 3600 + f.minutes * 60 + f.seconds == ms / 1000
  {
    var t := ms / 1000;
    var h := t / 3600;
    var r := t % 3600;
    var m := r / 60;
    var s := r % 60;
    assert t == 3600 * h + r;
    assert r == 60 * m + s;
    assert t == 60 * (60 * h + m) + s;
    assert t % 60 == s;
  }

  /** Minutes and seconds always show as exactly two digits, hours as at least two. */
  lemma FieldWidths(ms: int)
    requires ms >= 0
    ensures var f := Fields(ms);
      |Pad2(f.minutes)| == 2 && |Pad2(f.seconds)| == 2 && |Pad2(f.hours)| >= 2 &&
      IsDigits(Pad2(f.hours)) && IsDigits(Pad2(f.minutes)) && IsDigits(Pad2(f.seconds))
  {
    var f := Fields(ms);
    FieldsAddUp(ms);
    Pad2Small(f.minutes);
    Pad2Small(f.seconds);
    Pad2Digits(f.hours);
  }

  /** Three digit fields joined by colons split back into those fields. */
  lemma SplitClock(h: string, m: string, s: string)
    requires IsDigits(h) && IsDigits(m) && IsDigits(s)
    ensures Split(h + ":" + m + ":" + s, ':') == [h, m, s]
  {
    DigitsHaveNoColon(h);
    DigitsHaveNoColon(m);
    DigitsHaveNoColon(s);
    assert h + ":" + m + ":" + s == h + [':'] + (m + [':'] + s);
    SplitAtFirst(h, ':', m + [':'] + s);
    SplitAtFirst(m, ':', s);
    SplitNoSeparator(s, ':');
  }

  /** Splitting the display on ":" gives three digit fields that read back as the
      whole seconds. */
  lemma FormatTimeRoundTrip(ms: int)
    requires ms >= 0
    ensures var parts := Split(FormatTime(ms), ':');
      |parts| == 3 && IsDigits(parts[0]) && IsDigits(parts[1]) && IsDigits(parts[2]) &&
      ParseNat(parts[0]) * 3600 + ParseNat(parts[1]) * 60 + ParseNat(parts[2]) == ms / 1000
  {
    var f := Fields(ms);
    FieldsAddUp(ms);
    Pad2Digits(f.hours);
    Pad2Digits(f.minutes);
    Pad2Digits(f.seconds);
    SplitClock(Pad2(f.hours), Pad2(f.minutes), Pad2(f.seconds));
  }

  /** Under one second the display is all zeros. */
  lemma UnderOneSecond(ms: int)
    requires 0 <= ms < 1000
    ensures FormatTime(ms) == "00:00:00"
  {
    assert Fields(ms) == ClockFields(0, 0, 0);
    assert NatToString(0) == "0";
    assert Pad2(0) == "00";
  }
}
