/** The countdown to the event: splitting the remaining time into days,
    hours, minutes and seconds, the "event has passed" test, and the
    two-digit rendering of each unit. The remaining time is the event
    instant minus the current instant, in whole milliseconds; both instants
    are taken as inputs. */
module Countdown {
  import Text

  const MsPerSecond := 1000
  const MsPerMinute := 60 * MsPerSecond
  const MsPerHour := 60 * MsPerMinute
  const MsPerDay := 24 * MsPerHour

  datatype TimeLeft = TimeLeft(days: nat, hours: nat, minutes: nat, seconds: nat)

  const Zero := TimeLeft(0, 0, 0, 0)

  /** The milliseconds the four units stand for together. */
  function TotalMs(t: TimeLeft): nat
  {
    t.days * MsPerDay + t.hours * MsPerHour + t.minutes * MsPerMinute + t.seconds * MsPerSecond
  }

  /** Hours below a day, minutes below an hour, seconds below a minute. */
  predicate Normalized(t: TimeLeft)
  {
    t.hours < 24 && t.minutes < 60 && t.seconds < 60
  }

  /** `calculateTimeLeft`: a positive difference is split by division and
      remainder; anything else gives (and stores) all zeros. */
  function CalculateTimeLeft(difference: int): (t: TimeLeft)
    ensures difference <= 0 ==> t == Zero
    ensures difference > 0 ==> Normalized(t)
    ensures difference > 0 ==> TotalMs(t) <= difference < TotalMs(t) + MsPerSecond
  {
    if difference > 0 then
      var t := TimeLeft(difference / MsPerDay,
                        (difference / MsPerHour) % 24,
                        (difference / MsPerMinute) % 60,
                        (difference / MsPerSecond) % 60);
      Recomposition(difference);
      t
    else
      Zero
  }

  /** The split loses only the milliseconds below one second. */
  lemma Recomposition(d: nat)
    ensures var t := TimeLeft(d / MsPerDay, (d / MsPerHour) % 24, (d / MsPerMinute) % 60, (d / MsPerSecond) % 60);
            TotalMs(t) <= d < TotalMs(t) + MsPerSecond
  {
    var s := d / 1000;
    var m := s / 60;
    var h := m / 60;
    assert d / MsPerMinute == m;
    assert d / MsPerHour == h;
    assert d / MsPerDay == h / 24;
    assert h == 24 * (h / 24) + h % 24;
    assert m == 60 * h + m % 60;
    assert s == 60 * m + s % 60;
    assert d == 1000 * s + d % 1000;
    var t := TimeLeft(h / 24, h % 24, m % 60, s % 60);
    assert TotalMs(t) == 1000 * s;
  }

  /** The split is the only normalized one that loses less than a second:
      the units on display are determined by the difference. */
  lemma {:induction false} DecompositionUnique(d: int, t: TimeLeft)
    requires d > 0
    requires Normalized(t)
    requires TotalMs(t) <= d < TotalMs(t) + MsPerSecond
    ensures t == CalculateTimeLeft(d)
  {
    var s := t.days * 86400 + t.hours * 3600 + t.minutes * 60 + t.seconds;
    assert TotalMs(t) == 1000 * s;
    assert d / 1000 == s;
    var m := t.days * 1440 + t.hours * 60 + t.minutes;
    assert s == 60 * m + t.seconds;
    assert s / 60 == m && s % 60 == t.seconds;
    var h := t.days * 24 + t.hours;
    assert m == 60 * h + t.minutes;
    assert m / 60 == h && m % 60 == t.minutes;
    assert h / 24 == t.days && h % 24 == t.hours;
    assert d / MsPerMinute == m;
    assert d / MsPerHour == h;
    assert d / MsPerDay == t.days;
  }

  /** `eventHasPassed`: the remaining time is not positive. */
  predicate EventHasPassed(difference: int): (b: bool)
    ensures b ==> CalculateTimeLeft(difference) == Zero
    ensures difference >= MsPerSecond ==> !b
  {
    difference <= 0
  }

  /** The component shows "Event In Progress" exactly when the difference
      is not positive. In the last second before the start it has not
      passed yet and still shows all zeros; from one second before the
      start on the split is not all zero. */
  lemma PassedMeansZero(difference: int)
    ensures 0 < difference < MsPerSecond ==> !EventHasPassed(difference) && CalculateTimeLeft(difference) == Zero
    ensures difference >= MsPerSecond ==> CalculateTimeLeft(difference) != Zero
  {
  }

  /** `value.toString().padStart(2, '0')` in `TimeUnit`. */
  function TimeUnitText(value: nat): (r: string)
    ensures |r| >= 2
    ensures value < 10 ==> r[0] == '0' && |r| == 2
  {
    Text.PadStart(Text.DecimalString(value), 2, '0')
  }

  /** The rendered unit has at least two characters, gains exactly one
      leading '0' when the value has one digit, starts with '0' exactly then,
      and still denotes the value. */
  lemma {:induction false} TimeUnitTextFacts(value: nat)
    ensures var digits := Text.DecimalString(value);
            var r := TimeUnitText(value);
            && |r| == (if |digits| >= 2 then |digits| else 2)
            && (value < 10 ==> r == ['0'] + digits)
            && (value >= 10 ==> r == digits)
            && (r[0] == '0' <==> value < 10)
            && Text.DecimalValue(r) == value
  {
    var digits := Text.DecimalString(value);
    var r := TimeUnitText(value);
    Text.DecimalRoundTrip(value);
    if value < 10 {
      assert r == ['0'] + digits;
      Text.LeadingZeroValue(digits);
    } else {
      Text.DecimalLeadingDigit(value);
    }
  }
}
