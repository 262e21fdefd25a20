/**
 The relative-age label in a toot's header (`TootHead.compose`).

 The age is the difference of two already-parsed UTC instants, taken in whole
 microseconds as Python's `datetime` keeps them. Python normalises a
 `timedelta` so that its `seconds` component is the whole seconds WITHIN one day:
 whole days are dropped and the component is never negative. A toot 25 hours old
 therefore reads "1h", and one stamped 5 seconds in the future reads "23h".
 */
module TootHead {

  import opened Wrappers
  import opened Decimal

  /** A UTC instant, in microseconds since the epoch. */
  type Instant = int

  const MicrosPerSecond: nat := 1_000_000
  const SecondsPerDay: nat := 86400
  const MicrosPerDay: int := SecondsPerDay * MicrosPerSecond

  /** `(now - created).seconds`: whole seconds of the difference, whole days discarded. */
  function DeltaSeconds(created: Instant, now: Instant): (s: nat)
    ensures s < SecondsPerDay
    ensures ((now - created) / MicrosPerSecond - s) % SecondsPerDay == 0
  {
    ((now - created) / MicrosPerSecond) % SecondsPerDay
  }

  /** `minutesago`: the whole minutes in the within-day seconds. */
  function MinutesAgo(created: Instant, now: Instant): (m: nat)
    ensures m < 1440
    ensures m * 60 <= DeltaSeconds(created, now) < (m + 1) * 60
  {
    DeltaSeconds(created, now) / 60
  }

  /** `hoursago`: the whole hours in the within-day seconds. */
  function HoursAgo(created: Instant, now: Instant): (h: nat)
    ensures h < 24
    ensures h * 3600 <= DeltaSeconds(created, now) < (h + 1) * 3600
  {
    DivSixtyTwice(DeltaSeconds(created, now));
    MinutesAgo(created, now) / 60
  }

  /**
   The label shown in the header: hours when there is at least one, else minutes.
   It is canonical decimal digits followed by the unit, and the unit is 'h'
   exactly when the hour count is non-zero.
   */
  function AgeLabel(created: Instant, now: Instant): (text: string)
    ensures |text| >= 2 && IsCanonical(text[..|text| - 1])
    ensures text[|text| - 1] == 'h' || text[|text| - 1] == 'm'
    ensures text[|text| - 1] == 'h' <==> HoursAgo(created, now) != 0
  {
    var hours := HoursAgo(created, now);
    var n := if hours != 0 then hours else MinutesAgo(created, now);
    var unit := if hours != 0 then 'h' else 'm';
    var text := NatToString(n) + [unit];
    assert text[..|text| - 1] == NatToString(n);
    text
  }

  /** What a label says: a count of hours or a count of minutes. */
  datatype Age = Hours(hours: nat) | Minutes(minutes: nat)

  /** Reads a label back: decimal digits followed by the unit letter. */
  function ParseLabel(text: string): Option<Age> {
    if |text| < 2 then None
    else
      var digits := text[..|text| - 1];
      var unit := text[|text| - 1];
      if !IsCanonical(digits) then None
      else if unit == 'h' then Some(Hours(ParseNat(digits)))
      else if unit == 'm' then Some(Minutes(ParseNat(digits)))
      else None
  }

  /** The age a within-day count of seconds denotes, stated directly in seconds. */
  function AgeOfSeconds(s: nat): Age {
    if s >= 3600 then Hours(s / 3600) else Minutes(s / 60)
  }

  /** Floor-dividing by 60 twice is floor-dividing by 3600. */
  lemma DivSixtyTwice(s: nat)
    ensures s / 60 / 60 == s / 3600
  {
    var q := s / 3600;
    var r := s % 3600;
    assert s == 60 * (60 * q + r / 60) + r % 60;
  }

  /**
   The label states exactly the hours of the within-day difference when there are
   any, and the minutes otherwise: reading it back gives `AgeOfSeconds`.
   */
  lemma AgeLabelMeaning(created: Instant, now: Instant)
    ensures ParseLabel(AgeLabel(created, now)) == Some(AgeOfSeconds(DeltaSeconds(created, now)))
  {
    var s := DeltaSeconds(created, now);
    DivSixtyTwice(s);
    var text := AgeLabel(created, now);
    var n := if s >= 3600 then s / 3600 else s / 60;
    var unit := if s >= 3600 then 'h' else 'm';
    assert text == NatToString(n) + [unit];
    assert text[..|text| - 1] == NatToString(n);
    ParseNatToString(n);
  }

  /** The label is never negative and stays in range: 1..23 hours or 0..59 minutes. */
  lemma AgeLabelBounds(created: Instant, now: Instant)
    ensures match ParseLabel(AgeLabel(created, now))
      case Some(Hours(h)) => 1 <= h <= 23
      case Some(Minutes(m)) => m <= 59
      case None => false
  {
    AgeLabelMeaning(created, now);
  }

  /** The within-day seconds of an age do not change when whole days are added to it. */
  lemma DeltaSecondsIgnoresDays(created: Instant, now: Instant, days: int)
    ensures DeltaSeconds(created, now + days * MicrosPerDay) == DeltaSeconds(created, now)
  {
    var d := now - created;
    var d' := now + days * MicrosPerDay - created;
    assert d' == d + (days * SecondsPerDay) * MicrosPerSecond;
    assert d' / MicrosPerSecond == d / MicrosPerSecond + days * SecondsPerDay;
  }

  /** Whole days are dropped: adding any number of days to the age leaves the label alone. */
  lemma AgeLabelIgnoresDays(created: Instant, now: Instant, days: int)
    ensures AgeLabel(created, now + days * MicrosPerDay) == AgeLabel(created, now)
  {
    DeltaSecondsIgnoresDays(created, now, days);
  }

  /** The label of an age of `secs` whole seconds, stated through the seconds within the day. */
  lemma LabelAfterSeconds(created: Instant, secs: int)
    ensures var s := secs % SecondsPerDay;
      AgeLabel(created, created + secs * MicrosPerSecond)
        == if s >= 3600 then NatToString(s / 3600) + "h" else NatToString(s / 60) + "m"
  {
    assert (created + secs * MicrosPerSecond - created) / MicrosPerSecond == secs;
    DivSixtyTwice(secs % SecondsPerDay);
  }

  /** Under a minute reads "0m", 61 seconds "1m", and 3661 seconds "1h", never "61m". */
  lemma AgeLabelExamples(created: Instant)
    ensures AgeLabel(created, created + 59 * MicrosPerSecond) == "0m"
    ensures AgeLabel(created, created + 61 * MicrosPerSecond) == "1m"
    ensures AgeLabel(created, created + 3661 * MicrosPerSecond) == "1h"
    ensures AgeLabel(created, created + (SecondsPerDay + 61) * MicrosPerSecond) == "1m"
    ensures AgeLabel(created, created + (-5) * MicrosPerSecond) == "23h"
  {
    LabelAfterSeconds(created, 59);
    LabelAfterSeconds(created, 61);
    LabelAfterSeconds(created, 3661);
    LabelAfterSeconds(created, SecondsPerDay + 61);
    LabelAfterSeconds(created, -5);
    assert NatToString(0) == "0";
    assert NatToString(1) == "1";
    assert NatToString(23) == NatToString(2) + "3";
  }
}
