/** The countdown banner: the time left until a fixed moment, split into
    days, hours, minutes and seconds and shown as zero-padded numbers. The
    clock reading and the target moment are parameters; the one-second
    interval that calls `Tick` is not modelled. */
module Countdown {
  import opened Decimal

  const MsPerSecond: nat := 1000
  const MsPerMinute: nat := 60000      // 1000 * 60
  const MsPerHour: nat := 3600000      // 1000 * 60 * 60
  const MsPerDay: nat := 86400000      // 1000 * 60 * 60 * 24

  /** What the banner shows once the target moment has passed. */
  const FinishedText := "СМЕРТЕЛЬНАЯ МИГРАЦИЯ"

  /** `Math.floor(a / b)` for a positive divisor. */
  function FloorDiv(a: int, b: int): (q: int)
    requires b > 0
    ensures q * b <= a < q * b + b
  {
    a / b
  }

  /** JavaScript's `a % b`: the remainder of truncating division, which has
      the sign of the dividend (unlike Dafny's `%`). */
  function JsRem(a: int, b: int): (r: int)
    requires b > 0
    ensures exists q: int :: a == q * b + r
    ensures a >= 0 ==> 0 <= r < b
    ensures a < 0 ==> -b < r <= 0
  {
    var r := if a >= 0 then a % b else -((-a) % b);
    if a >= 0 then
      assert a == (a / b) * b + r;
      r
    else
      assert a == (-((-a) / b)) * b + r;
      r
  }

  datatype Parts = Parts(days: int, hours: int, minutes: int, seconds: int)

  /** The milliseconds the parts stand for, seconds and up. */
  function Milliseconds(p: Parts): int {
    p.days * MsPerDay + p.hours * MsPerHour + p.minutes * MsPerMinute + p.seconds * MsPerSecond
  }

  /** The split of `distance` milliseconds, with the operators the banner
      uses. On a non-negative distance (the only one it is applied to) the
      hours, minutes and seconds are in range, and the parts make up the
      distance rounded down to a whole second. */
  function Split(distance: int): (p: Parts)
    ensures distance >= 0 ==> p.days >= 0 && 0 <= p.hours < 24 && 0 <= p.minutes < 60 && 0 <= p.seconds < 60
    ensures distance >= 0 ==> Milliseconds(p) <= distance < Milliseconds(p) + MsPerSecond
  {
    var p := Parts(FloorDiv(distance, MsPerDay),
                   FloorDiv(JsRem(distance, MsPerDay), MsPerHour),
                   FloorDiv(JsRem(distance, MsPerHour), MsPerMinute),
                   FloorDiv(JsRem(distance, MsPerMinute), MsPerSecond));
    SplitFacts(distance, p);
    p
  }

  lemma SplitFacts(d: int, p: Parts)
    requires p == Parts(FloorDiv(d, MsPerDay),
                        FloorDiv(JsRem(d, MsPerDay), MsPerHour),
                        FloorDiv(JsRem(d, MsPerHour), MsPerMinute),
                        FloorDiv(JsRem(d, MsPerMinute), MsPerSecond))
    ensures d >= 0 ==> p.days >= 0 && 0 <= p.hours < 24 && 0 <= p.minutes < 60 && 0 <= p.seconds < 60
    ensures d >= 0 ==> Milliseconds(p) <= d < Milliseconds(p) + MsPerSecond
  {
    if d >= 0 {
      var qDay, rDay := d / 86400000, d % 86400000;
      var qHour, rHour := rDay / 3600000, rDay % 3600000;
      ModUnique(d, 3600000, 24 * qDay + qHour, rHour);
      var qMinute, rMinute := rHour / 60000, rHour % 60000;
      ModUnique(d, 60000, 1440 * qDay + 60 * qHour + qMinute, rMinute);
      var qSecond := rMinute / 1000;
      assert p == Parts(qDay, qHour, qMinute, qSecond);
      assert d == 86400000 * qDay + 3600000 * qHour + 60000 * qMinute + 1000 * qSecond + rMinute % 1000;
    }
  }

  /** One frame of the banner. */
  datatype Frame =
    | Finished(text: string)
    | Running(days: string, hours: string, minutes: string, seconds: string)

  /** `String(n).padStart(2, '0')`: the decimal digits of n, with a
      leading zero below 10. */
  function TwoDigits(n: nat): (s: string)
    ensures AllDigits(s) && DigitsValue(s) == n && |s| >= 2
    ensures n < 100 <==> |s| == 2
  {
    PadStart2Value(n);
    PadStart2(DecimalString(n))
  }

  /** One tick: a negative distance stops the countdown and shows the
      finished text without splitting; otherwise each part is shown with
      `String(n).padStart(2, '0')`. */
  function Tick(target: int, now: int): (f: Frame)
    ensures f.Finished? <==> now > target
    ensures f.Finished? ==> f.text == FinishedText
    ensures f.Running? ==> |f.hours| == 2 && |f.minutes| == 2 && |f.seconds| == 2 && |f.days| >= 2
  {
    var distance := target - now;
    if distance < 0 then
      Finished(FinishedText)
    else
      var p := Split(distance);
      Running(TwoDigits(p.days), TwoDigits(p.hours), TwoDigits(p.minutes), TwoDigits(p.seconds))
  }

  /** Reading the four fields of a running frame back as numbers gives the
      time left, rounded down to a whole second. */
  lemma TickReadsBack(target: int, now: int)
    requires now <= target
    ensures var f := Tick(target, now);
      && f.Running?
      && AllDigits(f.days) && AllDigits(f.hours) && AllDigits(f.minutes) && AllDigits(f.seconds)
      && var shown := Milliseconds(Parts(DigitsValue(f.days), DigitsValue(f.hours),
                                         DigitsValue(f.minutes), DigitsValue(f.seconds)));
         shown <= target - now < shown + MsPerSecond
  {
    var p := Split(target - now);
    assert Tick(target, now) == Running(TwoDigits(p.days), TwoDigits(p.hours), TwoDigits(p.minutes), TwoDigits(p.seconds));
  }
}
