/**
 * Clock arithmetic shared by both apps: Kotlin and Swift integer division
 * truncates toward zero, so `/` and `%` are modelled by `Quot` and `Rem`
 * rather than Dafny's Euclidean operators. On top of them sit the mm:ss
 * renderings of elapsed time and the local-recording cleanup cutoff.
 */
module Clock {
  import opened Text

  /** Truncating division `a / b` as Kotlin, Java and Swift compute it on integers. */
  function Quot(a: int, b: int): (q: int)
    requires b != 0
    ensures a >= 0 && b > 0 ==> q == a / b
  {
    if (a >= 0) == (b > 0) then Abs(a) / Abs(b) else -(Abs(a) / Abs(b))
  }

  /** The remainder matching `Quot`: it takes the sign of the dividend. */
  function Rem(a: int, b: int): (r: int)
    requires b != 0
    ensures a >= 0 ==> 0 <= r < Abs(b)
    ensures a < 0 ==> -Abs(b) < r <= 0
  {
    var r := Abs(a) % Abs(b);
    if a >= 0 then r else -r
  }

  function Abs(a: int): (r: int)
    ensures r >= 0
  {
    if a < 0 then -a else a
  }

  /** The dividend is recovered from quotient and remainder, for either sign. */
  lemma QuotRem(a: int, b: int)
    requires b != 0
    ensures Quot(a, b) * b + Rem(a, b) == a
  {
    var q := Abs(a) / Abs(b);
    var r := Abs(a) % Abs(b);
    assert Abs(a) == q * Abs(b) + r;
    if b < 0 {
      assert Abs(b) == -b;
      if a >= 0 { assert Quot(a, b) * b == q * Abs(b); }
      else { assert Quot(a, b) * b == -(q * Abs(b)); }
    } else {
      if a < 0 { assert Quot(a, b) * b == -(q * Abs(b)); }
    }
  }

  /** Swift `Int(t)` on a finite `TimeInterval`: the fraction is dropped toward zero. */
  function Truncate(t: real): (n: int)
    ensures t >= 0.0 ==> 0 <= n && n as real <= t < n as real + 1.0
    ensures t < 0.0 ==> n <= 0 && n as real - 1.0 < t <= n as real
  {
    if t >= 0.0 then t.Floor else -((-t).Floor)
  }

  /** `"%02d:%02d"` of minutes and seconds of a whole number of seconds. */
  function MinutesSeconds(totalSeconds: int): (r: string)
    ensures |r| >= 5
  {
    Pad2(Quot(totalSeconds, 60)) + ":" + Pad2(Rem(totalSeconds, 60))
  }

  /**
   * Android `formatTime(millis)` and `TimerService.formattedTime()`: whole
   * seconds are `millis / 1000`, truncated, then split into minutes (not
   * capped) and seconds.
   */
  function FormatTime(millis: int): (r: string)
  {
    MinutesSeconds(Quot(millis, 1000))
  }

  /**
   * For a non-negative duration the rendering is the two-digit seconds part
   * in [0, 59] after the minutes, and the parts recombine to the whole
   * seconds; under an hour both parts are exactly two digits.
   */
  lemma FormatTimeParts(millis: int)
    requires millis >= 0
    ensures var s := millis / 1000;
      FormatTime(millis) == Pad2(s / 60) + ":" + Pad2(s % 60)
      && 0 <= s % 60 <= 59 && (s / 60) * 60 + s % 60 == s
    ensures millis < 3600000 ==> |FormatTime(millis)| == 5 && FormatTime(millis)[2] == ':'
  {
    var s := millis / 1000;
    assert Quot(millis, 1000) == s;
    assert Quot(s, 60) == s / 60 && Rem(s, 60) == s % 60;
    if millis < 3600000 {
      Pad2Value(s / 60);
      Pad2Value(s % 60);
    }
  }

  lemma FormatTimeZero()
    ensures FormatTime(0) == "00:00"
  {
    assert Pad2(0) == "00";
  }

  /** Swift `toMinutesSeconds`: `Int(t) / 60` and `Int(t) % 60`, each as `%02d`. */
  function ToMinutesSeconds(t: real): (r: string)
  {
    MinutesSeconds(Truncate(t))
  }

  /** Swift `toHoursMinutesSeconds`: `s / 3600`, `(s % 3600) / 60`, `s % 60`. */
  function ToHoursMinutesSeconds(t: real): (r: string)
  {
    var s := Truncate(t);
    Pad2(Quot(s, 3600)) + ":" + Pad2(Quot(Rem(s, 3600), 60)) + ":" + Pad2(Rem(s, 60))
  }

  /** The three parts `toHoursMinutesSeconds` prints, as numbers. */
  function HmsParts(t: real): (int, int, int)
  {
    var s := Truncate(t);
    (Quot(s, 3600), Quot(Rem(s, 3600), 60), Rem(s, 60))
  }

  /**
   * Hours, minutes and seconds recombine to the truncated interval for any
   * sign, and for a non-negative interval minutes and seconds lie in [0, 59].
   */
  lemma HmsRecombine(t: real)
    ensures var (h, m, sec) := HmsParts(t);
      h * 3600 + m * 60 + sec == Truncate(t)
    ensures t >= 0.0 ==> var (h, m, sec) := HmsParts(t);
      h >= 0 && 0 <= m <= 59 && 0 <= sec <= 59
    ensures ToHoursMinutesSeconds(t) == (var (h, m, sec) := HmsParts(t); Pad2(h) + ":" + Pad2(m) + ":" + Pad2(sec))
  {
    var s := Truncate(t);
    var r := Rem(s, 3600);
    QuotRem(s, 3600);
    QuotRem(r, 60);
    // s % 60 equals (s % 3600) % 60 because 3600 is a multiple of 60
    var q := Quot(s, 3600);
    assert Rem(s, 60) == Rem(r, 60) by {
      QuotRem(s, 60);
      RemOfMultiple(s, q, r);
    }
  }

  /** Removing a multiple of 3600 does not change the remainder modulo 60, for dividends of one sign. */
  lemma RemOfMultiple(s: int, q: int, r: int)
    requires s == q * 3600 + r
    requires (s >= 0 && r >= 0) || (s < 0 && r <= 0)
    ensures Rem(s, 60) == Rem(r, 60)
  {
    var k := q * 60;
    assert q * 3600 == k * 60;
    if s >= 0 {
      var d, m := r / 60, r % 60;
      assert s == (k + d) * 60 + m;
      ModOfDecomposition(s, k + d, m);
    } else {
      var d, m := (-r) / 60, (-r) % 60;
      assert -s == (d - k) * 60 + m;
      ModOfDecomposition(-s, d - k, m);
    }
  }

  /** A number written as a multiple of 60 plus a digit in [0, 60) has that digit as its remainder. */
  lemma ModOfDecomposition(n: int, d: int, m: int)
    requires 0 <= m < 60 && n == d * 60 + m
    ensures n % 60 == m
  {
    var d0, m0 := n / 60, n % 60;
    assert (d - d0) * 60 == m0 - m;
  }

  /** The FeedbackCard duration label: `"\(d / 60):"` then `%02d` of `d % 60`. */
  function DurationLabel(durationSeconds: int): (r: string)
  {
    IntToString(Quot(durationSeconds, 60)) + ":" + Pad2(Rem(durationSeconds, 60))
  }

  /** For a non-negative duration the label is unpadded minutes, ':' and exactly two digits of seconds. */
  lemma DurationLabelShape(d: int)
    requires d >= 0
    ensures var r := DurationLabel(d);
      |r| >= 4 && r[|r| - 3] == ':' && DigitsValue(r[|r| - 2..]) == d % 60
      && r[..|r| - 3] == NatToString(d / 60)
  {
    Pad2Value(d % 60);
    var r := DurationLabel(d);
    assert r[|r| - 2..] == Pad2(d % 60);
    assert r[..|r| - 3] == NatToString(d / 60);
  }

  const MaxLocalStorageDays := 7
  const SecondsPerDay := 24 * 60 * 60

  /** `cleanupOldRecordings`: the cutoff is `now` minus the storage period in seconds. */
  function CleanupCutoff(now: int): (c: int)
    ensures c == now - 604800
  {
    now - MaxLocalStorageDays * SecondsPerDay
  }

  /** Only files created strictly before the cutoff are removed. */
  predicate ShouldRemove(creation: int, now: int)
  {
    creation < CleanupCutoff(now)
  }

  /** A file exactly seven days old is kept; one a second older is removed. */
  lemma CutoffBoundary(now: int)
    ensures !ShouldRemove(now - 604800, now)
    ensures ShouldRemove(now - 604801, now)
  {
  }
}
