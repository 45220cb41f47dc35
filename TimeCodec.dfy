/**
 * The time codec of utils.ts: `formatTime` renders seconds as `M:SS.CC` with every
 * field truncated, and `parseTime` reads `M:SS` or a bare number back, or gives null.
 */
module TimeCodec {
  import opened Wrappers
  import opened JsText
  import opened RealArith

  /** The integer part, rounding toward zero: the quotient JavaScript's `%` truncates to (utils.ts:4-5). */
  function Trunc(x: real): (n: int)
    ensures x >= 0.0 ==> n == x.Floor
    ensures x < 0.0 ==> x <= n as real < x + 1.0
  {
    if x >= 0.0 then x.Floor else -((-x).Floor)
  }

  /** JavaScript's `a % b` on numbers: the remainder of truncating division, with the sign of `a`. */
  function JsRem(a: real, b: real): real
    requires b > 0.0
  {
    a - b * Trunc(a / b) as real
  }

  /** The remainder takes the sign of the dividend and is smaller than the divisor in magnitude. */
  lemma JsRemBounds(a: real, b: real)
    requires b > 0.0
    ensures a >= 0.0 ==> 0.0 <= JsRem(a, b) < b
    ensures a < 0.0 ==> -b < JsRem(a, b) <= 0.0
  {
    var q := a / b;
    var k := Trunc(q) as real;
    assert a >= 0.0 <==> q >= 0.0;
    assert a - b * k == b * (q - k);
    ScaledFraction(a - b * k, b, q - k);
  }

  /** `formatTime(time)` (utils.ts): minutes, then zero-padded seconds and centiseconds, each truncated. */
  function FormatTime(time: real): string
  {
    var mins := (time / 60.0).Floor;
    var secs := JsRem(time, 60.0).Floor;
    var ms := (JsRem(time, 1.0) * 100.0).Floor;
    IntToString(mins) + ":" + PadStart(IntToString(secs), 2, '0') + "." + PadStart(IntToString(ms), 2, '0')
  }

  // The three fields of a non-negative time, defined directly from the number.

  /** Whole minutes. */
  function MinutesOf(t: real): nat
    requires t >= 0.0
  {
    (t / 60.0).Floor
  }

  /** Whole seconds past the last whole minute. */
  function SecondsOf(t: real): int
    requires t >= 0.0
  {
    t.Floor - 60 * MinutesOf(t)
  }

  /** Whole hundredths past the last whole second. */
  function CentisOf(t: real): int
    requires t >= 0.0
  {
    (100.0 * t).Floor - 100 * t.Floor
  }

  /**
   * A non-negative time renders as its unpadded minutes, a colon, exactly two digits of
   * seconds (00 to 59), a point and exactly two digits of hundredths (00 to 99).
   */
  lemma FormatTimeFields(t: real)
    requires t >= 0.0
    ensures 0 <= SecondsOf(t) < 60 && 0 <= CentisOf(t) < 100
    ensures FormatTime(t)
         == NatToString(MinutesOf(t)) + ":" + (TwoDigitText(SecondsOf(t)) + "." + TwoDigitText(CentisOf(t)))
  {
    var m := MinutesOf(t);
    var n := t.Floor;
    assert 60 * m <= n < 60 * m + 60 by {
      assert (60 * m) as real <= t < (60 * m + 60) as real;
    }
    var secs := JsRem(t, 60.0).Floor;
    assert JsRem(t, 60.0) == t - (60 * m) as real;
    assert secs == n - 60 * m by {
      assert (n - 60 * m) as real <= t - (60 * m) as real < (n - 60 * m + 1) as real;
    }
    var ms := (JsRem(t, 1.0) * 100.0).Floor;
    assert JsRem(t, 1.0) == t - n as real;
    assert ms == CentisOf(t) by {
      var k := (100.0 * t).Floor;
      assert (k - 100 * n) as real <= (t - n as real) * 100.0 < (k - 100 * n + 1) as real;
    }
    assert 0 <= CentisOf(t) < 100 by {
      assert (100 * n) as real <= 100.0 * t < (100 * n + 100) as real;
    }
    var minutes, seconds, centis := NatToString(m), TwoDigitText(n - 60 * m), TwoDigitText(ms);
    assert IntToString((t / 60.0).Floor) == minutes;
    assert PadStart(IntToString(secs), 2, '0') == seconds;
    assert PadStart(IntToString(ms), 2, '0') == centis;
    assert FormatTime(t) == minutes + ":" + seconds + "." + centis;
    assert minutes + ":" + seconds + "." + centis == minutes + ":" + (seconds + "." + centis);
  }

  /** A run of digits holds neither separator of a clock text. */
  lemma DigitsHaveNoSeparator(d: string)
    requires AllDigits(d)
    ensures multiset(d)[':'] == 0 && multiset(d)['.'] == 0
  {
    assert ':' !in d && '.' !in d by {
      assert forall i :: 0 <= i < |d| ==> IsDigit(d[i]);
    }
  }

  /**
   * A clock text of minutes, two-digit seconds and two-digit hundredths holds exactly one
   * colon and one point, and is six characters longer than its minutes.
   */
  lemma ClockSeparators(m: nat, secs: nat, centis: nat)
    requires secs < 100 && centis < 100
    ensures var text := NatToString(m) + ":" + (TwoDigitText(secs) + "." + TwoDigitText(centis));
      && multiset(text)[':'] == 1 && multiset(text)['.'] == 1
      && |text| == |NatToString(m)| + 6
  {
    DigitsHaveNoSeparator(NatToString(m));
    DigitsHaveNoSeparator(TwoDigitText(secs));
    DigitsHaveNoSeparator(TwoDigitText(centis));
    var text := NatToString(m) + ":" + (TwoDigitText(secs) + "." + TwoDigitText(centis));
    assert multiset(text) == multiset(NatToString(m)) + multiset{':'} + (multiset(TwoDigitText(secs)) + multiset{'.'} + multiset(TwoDigitText(centis)));
  }

  /** The rendering of a non-negative time holds exactly one colon and exactly one point. */
  lemma FormatTimeSeparators(t: real)
    requires t >= 0.0
    ensures multiset(FormatTime(t))[':'] == 1 && multiset(FormatTime(t))['.'] == 1
    ensures |FormatTime(t)| == |NatToString(MinutesOf(t))| + 6
  {
    FormatTimeFields(t);
    ClockSeparators(MinutesOf(t), SecondsOf(t), CentisOf(t));
  }

  /**
   * `parseTime(str)` (utils.ts): `M:SS` (one colon) as minutes times sixty plus seconds,
   * a bare number as seconds, anything else (or a side that is not a number) None.
   */
  function ParseTime(str: string): (r: Option<real>)
    ensures r.Some? ==> multiset(str)[':'] <= 1
  {
    var parts := Split(str, ':');
    if |parts| == 2 then MinutesAndSeconds(ParseFloat(parts[0]), ParseFloat(parts[1]))
    else if |parts| == 1 then ParseFloat(parts[0])
    else None
  }

  /** `mins * 60 + secs` when both sides are numbers, None when either is NaN. */
  function MinutesAndSeconds(mins: Option<real>, secs: Option<real>): Option<real>
  {
    if mins.Some? && secs.Some? then Some(mins.value * 60.0 + secs.value) else None
  }

  /** Text without a colon is read as a bare number of seconds. */
  lemma ParseTimeBare(s: string)
    requires ':' !in s
    ensures ParseTime(s) == ParseFloat(s)
  {
    NoSeparatorSplit(s, ':');
  }

  /** Two colon-free pieces joined by one colon split back into those pieces. */
  lemma SplitClock(mins: string, secs: string)
    requires ':' !in mins && ':' !in secs
    ensures Split(mins + ":" + secs, ':') == [mins, secs]
  {
    assert Join([mins, secs], ':') == mins + ":" + secs;
    SplitJoin([mins, secs], ':');
  }

  /** Text with one colon is minutes and seconds, with no range check on either side. */
  lemma ParseTimeMinutes(mins: string, secs: string)
    requires ':' !in mins && ':' !in secs
    ensures ParseTime(mins + ":" + secs) == MinutesAndSeconds(ParseFloat(mins), ParseFloat(secs))
  {
    SplitClock(mins, secs);
  }

  /** Text with two or more colons is rejected. */
  lemma ParseTimeManyColons(s: string)
    requires multiset(s)[':'] >= 2
    ensures ParseTime(s) == None
  {
  }

  /** Two numbers joined by one colon read as the first times sixty plus the second. */
  lemma ParseTimeNumbers(mins: string, secs: string, m: real, x: real, v: real)
    requires ':' !in mins && ':' !in secs
    requires ParseFloat(mins) == Some(m) && ParseFloat(secs) == Some(x)
    requires v == m * 60.0 + x
    ensures ParseTime(mins + ":" + secs) == Some(v)
  {
    SplitClock(mins, secs);
  }

  /** A run of digits holds no colon. */
  lemma DigitsHaveNoColon(s: string)
    requires AllDigits(s)
    ensures ':' !in s
  {
    assert forall i :: 0 <= i < |s| ==> s[i] != ':';
  }

  /** The minutes of a clock text hold no colon and read back as the number. */
  lemma MinutesText(m: nat)
    ensures ':' !in NatToString(m) && ParseFloat(NatToString(m)) == Some(m as real)
  {
    DigitsHaveNoColon(NatToString(m));
    ParseFloatNat(m);
  }

  /** Digits, a point and digits hold no colon. */
  lemma DecimalHasNoColon(a: string, b: string)
    requires AllDigits(a) && AllDigits(b)
    ensures ':' !in a + "." + b
  {
    assert forall i :: 0 <= i < |a + "." + b| ==> (a + "." + b)[i] == '.' || IsDigit((a + "." + b)[i]);
  }

  /** Two-digit seconds, a point and two-digit hundredths hold no colon and read as seconds. */
  lemma SecondsText(secs: nat, centis: nat)
    requires secs < 100 && centis < 100
    ensures ':' !in TwoDigitText(secs) + "." + TwoDigitText(centis)
    ensures ParseFloat(TwoDigitText(secs) + "." + TwoDigitText(centis)) == Some(secs as real + centis as real / 100.0)
  {
    DecimalHasNoColon(TwoDigitText(secs), TwoDigitText(centis));
    ParseFloatTwoPlaces(secs, centis);
  }

  /** Minutes, a colon, two-digit seconds, a point and two-digit hundredths read as seconds. */
  lemma ParseClockTail(mins: string, secs: nat, centis: nat, m: real, v: real)
    requires secs < 100 && centis < 100
    requires ':' !in mins && ParseFloat(mins) == Some(m)
    requires v == m * 60.0 + (secs as real + centis as real / 100.0)
    ensures ParseTime(mins + ":" + (TwoDigitText(secs) + "." + TwoDigitText(centis))) == Some(v)
  {
    SecondsText(secs, centis);
    ParseTimeNumbers(mins, TwoDigitText(secs) + "." + TwoDigitText(centis), m, secs as real + centis as real / 100.0, v);
  }

  /**
   * A clock text of minutes, two-digit seconds and two-digit hundredths reads back as
   * its value in seconds, `v`.
   */
  lemma ParseClockText(m: nat, secs: nat, centis: nat, v: real)
    requires secs < 100 && centis < 100
    requires v == m as real * 60.0 + (secs as real + centis as real / 100.0)
    ensures ParseTime(NatToString(m) + ":" + (TwoDigitText(secs) + "." + TwoDigitText(centis))) == Some(v)
  {
    MinutesText(m);
    ParseClockTail(NatToString(m), secs, centis, m as real, v);
  }

  /** A time truncated to whole hundredths of a second. */
  function Hundredths(t: real): real
  {
    (100.0 * t).Floor as real / 100.0
  }

  /** Truncating a non-negative time to hundredths keeps it non-negative and never raises it. */
  lemma HundredthsBounds(t: real)
    requires t >= 0.0
    ensures 0.0 <= Hundredths(t) <= t
  {
    assert (100.0 * t).Floor >= 0;
  }

  /** The three fields together are the time truncated to hundredths. */
  lemma FieldsValue(t: real)
    requires t >= 0.0
    ensures Hundredths(t)
         == MinutesOf(t) as real * 60.0 + (SecondsOf(t) as real + CentisOf(t) as real / 100.0)
    ensures t - 0.01 < Hundredths(t) <= t
  {
  }

  /** The clock text built from the three fields of a time reads back as the time truncated to hundredths. */
  lemma ParseFields(t: real, m: nat, secs: nat, centis: nat)
    requires t >= 0.0 && m == MinutesOf(t) && secs == SecondsOf(t) && centis == CentisOf(t)
    requires secs < 60 && centis < 100
    ensures ParseTime(NatToString(m) + ":" + (TwoDigitText(secs) + "." + TwoDigitText(centis)))
         == Some(Hundredths(t))
    ensures t - 0.01 < Hundredths(t) <= t
  {
    FieldsValue(t);
    ParseClockText(m, secs, centis, Hundredths(t));
  }

  /**
   * Round trip: reading back the rendering of a non-negative time gives the time
   * truncated to hundredths, so never more than the time and less than a hundredth below it.
   */
  lemma ParseFormatTime(t: real)
    requires t >= 0.0
    ensures ParseTime(FormatTime(t)) == Some(Hundredths(t))
    ensures t - 0.01 < Hundredths(t) <= t
  {
    FormatTimeFields(t);
    ParseFields(t, MinutesOf(t), SecondsOf(t), CentisOf(t));
  }

  // Worked examples.

  lemma ParseMinutesExample()
    ensures ParseTime("1:30") == Some(90.0)
  {
    assert ParseFloat("1") == Some(1.0);
    assert ParseFloat("30") == Some(30.0);
    assert "1" + ":" + "30" == "1:30";
    ParseTimeNumbers("1", "30", 1.0, 30.0, 90.0);
  }

  lemma ParseOverflowSecondsExample()
    ensures ParseTime("1:90.5") == Some(150.5)
  {
    assert ParseFloat("1") == Some(1.0);
    assert ParseFloat("90.5") == Some(Scale(905.0, -1)) == Some(90.5);
    assert "1" + ":" + "90.5" == "1:90.5";
    ParseTimeNumbers("1", "90.5", 1.0, 90.5, 150.5);
  }

  lemma ParseBareExample()
    ensures ParseTime("90") == Some(90.0)
  {
    ParseTimeBare("90");
  }

  lemma ParseThreePartsExample()
    ensures ParseTime("1:2:3") == None
  {
    assert multiset("1:2:3")[':'] == 2;
    ParseTimeManyColons("1:2:3");
  }

  lemma ParseNotANumberExamples()
    ensures ParseTime("") == None
    ensures ParseTime("abc") == None
  {
    ParseTimeBare("");
    ParseTimeBare("abc");
  }

  /** The clock text of one minute, five seconds and fifty hundredths. */
  lemma ClockTextExample()
    ensures NatToString(1) + ":" + (TwoDigitText(5) + "." + TwoDigitText(50)) == "1:05.50"
  {
    TwoDigitsOf(5);
    TwoDigitsOf(50);
  }

  lemma FormatExample(t: real)
    requires t == 65.5
    ensures FormatTime(t) == "1:05.50"
  {
    FormatTimeFields(t);
    assert MinutesOf(t) == 1 && SecondsOf(t) == 5 && CentisOf(t) == 50;
    ClockTextExample();
  }

  /** The clock text of no minutes, fifty-nine seconds and ninety-nine hundredths. */
  lemma ClockTextTruncatedExample()
    ensures NatToString(0) + ":" + (TwoDigitText(59) + "." + TwoDigitText(99)) == "0:59.99"
  {
    TwoDigitsOf(59);
    TwoDigitsOf(99);
  }

  lemma FormatTruncatesExample(t: real)
    requires t == 59.999
    ensures FormatTime(t) == "0:59.99"
  {
    FormatTimeFields(t);
    assert MinutesOf(t) == 0 && SecondsOf(t) == 59 && CentisOf(t) == 99;
    ClockTextTruncatedExample();
  }
}
