/** The duration and distance labels. The same `formatDuration` is written
    out in the route card, the direction step and the route details screen,
    and the same `formatDistance` in the route card and the details screen;
    each is defined once here. */
module Formatting {
  import opened Types
  import opened Text

  const MinutesPerHour: nat := 60
  const MetersPerKilometer: nat := 1000

  /** The integer part of `a / b` with the fraction cut toward zero, which
      is the quotient JavaScript's `%` is defined by. */
  function TruncatedQuotient(a: int, b: int): int
    requires b > 0
  {
    if a >= 0 then a / b else -((-a) / b)
  }

  /** JavaScript's `a % b`: what is left of the dividend after taking off the
      truncated quotient times the divisor, so it has the sign of the
      dividend. */
  function JsRemainder(a: int, b: int): (r: int)
    requires b > 0
    ensures a == TruncatedQuotient(a, b) * b + r
    ensures a >= 0 ==> 0 <= r < b
    ensures a < 0 ==> -b < r <= 0
  {
    if a >= 0 then a % b else -((-a) % b)
  }

  /** `formatDuration(minutes)`: whole hours and the remaining minutes, the
      hours part only when there is at least one hour. `Math.floor(m / 60)`
      is Dafny's `m / 60`, which rounds down for a positive divisor. From
      an hour on the label is "<hours>h <minutes>m" with the minutes part
      below 60; under an hour it is "<minutes>m"; a negative duration shows
      only its truncated remainder. */
  function FormatDuration(minutes: int): (shown: string)
    ensures minutes >= MinutesPerHour ==>
              && shown == NatToString(minutes / MinutesPerHour) + "h "
                          + NatToString(minutes % MinutesPerHour) + "m"
              && 0 <= minutes % MinutesPerHour < MinutesPerHour
    ensures 0 <= minutes < MinutesPerHour ==> shown == NatToString(minutes) + "m"
    ensures minutes < 0 ==> shown == IntToString(JsRemainder(minutes, MinutesPerHour)) + "m"
  {
    var hours := minutes / MinutesPerHour;
    var mins := JsRemainder(minutes, MinutesPerHour);
    if hours > 0 then IntToString(hours) + "h " + IntToString(mins) + "m"
    else IntToString(mins) + "m"
  }

  /** Reads a duration label back into minutes. */
  function ParseDuration(s: string): Option<nat>
  {
    var n := DigitPrefixLength(s);
    if n == 0 then None
    else
      var lead := DigitsValue(s[..n]);
      var rest := s[n..];
      if rest == "m" then Some(lead)
      else if |rest| >= 2 && rest[..2] == "h " then
        var tail := rest[2..];
        var k := DigitPrefixLength(tail);
        if k > 0 && tail[k..] == "m" then Some(lead * MinutesPerHour + DigitsValue(tail[..k]))
        else None
      else None
  }

  /** For any non-negative number of minutes the label reads back as that
      number: the hours and minutes parts together lose nothing. */
  lemma FormatDurationRoundTrip(minutes: nat)
    ensures ParseDuration(FormatDuration(minutes)) == Some(minutes)
  {
    var s := FormatDuration(minutes);
    var hours, mins := minutes / MinutesPerHour, minutes % MinutesPerHour;
    assert minutes == hours * MinutesPerHour + mins;
    assert JsRemainder(minutes, MinutesPerHour) == mins;
    if hours > 0 {
      var dh, dm := NatToString(hours), NatToString(mins);
      assert s == dh + ("h " + dm + "m");
      DigitPrefixOf(dh, "h " + dm + "m");
      assert s[..|dh|] == dh;
      var rest := s[|dh|..];
      assert rest == "h " + dm + "m";
      assert rest[2..] == dm + "m";
      DigitPrefixOf(dm, "m");
      assert (dm + "m")[..|dm|] == dm;
      assert (dm + "m")[|dm|..] == "m";
      NatToStringRoundTrip(hours);
      NatToStringRoundTrip(mins);
    } else {
      var dm := NatToString(mins);
      assert s == dm + "m";
      DigitPrefixOf(dm, "m");
      assert s[..|dm|] == dm;
      assert s[|dm|..] == "m";
      NatToStringRoundTrip(mins);
    }
  }

  /** What `formatDistance` shows. The kilometre label is `(m / 1000).toFixed(1)`
      on a float; the model keeps that case symbolic. */
  datatype DistanceText = Plain(text: string) | Kilometres(meters: int)

  /** Reads a metre label back into meters. */
  function ParseMetres(s: string): Option<nat>
  {
    var n := DigitPrefixLength(s);
    if n > 0 && s[n..] == " m" then Some(DigitsValue(s[..n])) else None
  }

  /** A metre label "<meters> m" reads back as the same number of meters. */
  lemma MetresLabelRoundTrip(meters: nat)
    ensures ParseMetres(NatToString(meters) + " m") == Some(meters)
  {
    var d := NatToString(meters);
    var s := d + " m";
    DigitPrefixOf(d, " m");
    assert s[..|d|] == d;
    assert s[|d|..] == " m";
    NatToStringRoundTrip(meters);
  }

  /** `formatDistance(meters)` of the route card and the details screen: from
      a kilometre on the kilometre label, below it "<meters> m", which reads
      back as the distance. */
  function FormatDistance(meters: int): (shown: DistanceText)
    ensures shown.Kilometres? <==> meters >= MetersPerKilometer
    ensures shown.Kilometres? ==> shown.meters == meters
    ensures meters < MetersPerKilometer ==> shown == Plain(IntToString(meters) + " m")
    ensures 0 <= meters < MetersPerKilometer ==>
              shown == Plain(NatToString(meters) + " m") && ParseMetres(shown.text) == Some(meters)
  {
    if meters >= MetersPerKilometer then Kilometres(meters)
    else if meters >= 0 then
      MetresLabelRoundTrip(meters);
      Plain(IntToString(meters) + " m")
    else Plain(IntToString(meters) + " m")
  }
}
