/** What a timeline relies on: canonical text sorts as time does, and conversion never swaps two
    timestamps. See shared/time.ts. */
module TimestampOrder {
  import opened Wrappers
  import opened Digits
  import opened Calendar
  import opened TimestampText
  import opened Timestamp

  /** `Date.parse`. Canonical text with real fields denotes its instant; what an engine makes of any
      other text is the parameter `engine`. */
  function DateParse(text: string, engine: string -> Option<int>): Option<int> {
    MatchSound(text);
    if CanonicalShape(text) && Accepted(text) then Some(Instant(MomentOf(Match(text).value))) else engine(text)
  }

  /** Milliseconds since the epoch, `None` for NaN. */
  function TimestampMs(value: Option<string>, engine: string -> Option<int>): Option<int> {
    match value
    case None => None
    case Some(text) => DateParse(Normalized(text), engine)
  }

  /** The whole millisecond an accepted text denotes. */
  function InstantOf(text: string): int
    requires Accepted(text)
  {
    MatchSound(text);
    Instant(MomentOf(Match(text).value))
  }

  function ExactInstantOf(text: string): real
    requires Accepted(text)
  {
    MatchSound(text);
    ExactInstant(Match(text).value)
  }

  // ----- truncation -----

  lemma ThreeDigits(f: string)
    requires AllDigits(f) && |f| == 3
    ensures Value(f) == 100 * DigitValue(f[0]) + 10 * DigitValue(f[1]) + DigitValue(f[2])
  {
    assert f[..2][..1] == f[..1] && f[..1][..0] == [];
    assert Value(f[..1]) == DigitValue(f[0]);
    assert Value(f[..2]) == 10 * Value(f[..1]) + DigitValue(f[1]);
  }

  /** The first three digits are the whole milliseconds. */
  lemma FractionTruncates(f: string)
    requires AllDigits(f)
    ensures Value(FirstThree(f)) as real <= 1000.0 * FractionValue(f) < Value(FirstThree(f)) as real + 1.0
  {
    ThreeDigits(FirstThree(f));
    if |f| >= 1 {
      var g := f[1..];
      assert 10.0 * FractionValue(f) == DigitValue(f[0]) as real + FractionValue(g);
      if |f| >= 2 {
        var h := g[1..];
        assert 10.0 * FractionValue(g) == DigitValue(f[1]) as real + FractionValue(h);
        if |f| >= 3 {
          assert 10.0 * FractionValue(h) == DigitValue(f[2]) as real + FractionValue(h[1..]);
        }
      }
    }
  }

  lemma InstantIsFloor(text: string)
    requires Accepted(text)
    ensures InstantOf(text) == ExactInstantOf(text).Floor
  {
    MatchSound(text);
    var fraction := Match(text).value.fraction;
    if fraction.Some? {
      FractionTruncates(fraction.value);
    }
  }

  // ----- text order -----

  predicate FieldBefore(m: nat, n: nat, width: nat, x: string, y: string) {
    (m < n < Pow10(width)) || (m == n && TextBefore(x, y))
  }

  lemma FieldOrder(m: nat, n: nat, width: nat, x: string, y: string)
    requires FieldBefore(m, n, width, x, y)
    ensures TextBefore(Pad(m, width) + x, Pad(n, width) + y)
  {
    if m < n {
      PadOrder(m, n, width);
      TextBeforeAppend(Pad(m, width), Pad(n, width), x, y);
    } else {
      TextBeforePrefix(Pad(m, width), x, y);
    }
  }

  predicate ClockBefore(a: Clock, b: Clock) {
    || a.hour < b.hour
    || (a.hour == b.hour && a.minute < b.minute)
    || (a.hour == b.hour && a.minute == b.minute && a.second < b.second)
    || (a.hour == b.hour && a.minute == b.minute && a.second == b.second && a.milli < b.milli)
  }

  lemma SecondsTextOrder(a: Clock, b: Clock)
    requires RealClock(a) && RealClock(b)
    requires a.second < b.second || (a.second == b.second && a.milli < b.milli)
    ensures TextBefore(Pad(a.second, 2) + ("." + (Pad(a.milli, 3) + "Z")),
                       Pad(b.second, 2) + ("." + (Pad(b.milli, 3) + "Z")))
  {
    assert Pow10(2) == 100 && Pow10(3) == 1000;
    if a.second == b.second {
      FieldOrder(a.milli, b.milli, 3, "Z", "Z");
      TextBeforePrefix(".", Pad(a.milli, 3) + "Z", Pad(b.milli, 3) + "Z");
    }
    FieldOrder(a.second, b.second, 2, "." + (Pad(a.milli, 3) + "Z"), "." + (Pad(b.milli, 3) + "Z"));
  }

  lemma MinutesTextOrder(m: nat, n: nat, x: string, y: string)
    requires m < n < 100 || (m == n < 100 && TextBefore(x, y))
    ensures TextBefore(Pad(m, 2) + (":" + x), Pad(n, 2) + (":" + y))
  {
    assert Pow10(2) == 100;
    if m == n {
      TextBeforePrefix(":", x, y);
    }
    FieldOrder(m, n, 2, ":" + x, ":" + y);
  }

  lemma ClockTextOrder(a: Clock, b: Clock)
    requires RealClock(a) && RealClock(b) && ClockBefore(a, b)
    ensures TextBefore(ClockText(a), ClockText(b))
  {
    var x, y := Pad(a.second, 2) + ("." + (Pad(a.milli, 3) + "Z")), Pad(b.second, 2) + ("." + (Pad(b.milli, 3) + "Z"));
    if a.hour == b.hour {
      if a.minute == b.minute {
        SecondsTextOrder(a, b);
      }
      MinutesTextOrder(a.minute, b.minute, x, y);
    }
    MinutesTextOrder(a.hour, b.hour, Pad(a.minute, 2) + (":" + x), Pad(b.minute, 2) + (":" + y));
  }

  lemma DateTextOrder(a: Date, b: Date)
    requires RealDate(a) && RealDate(b) && 0 <= a.year && b.year <= 9999 && DateBefore(a, b)
    ensures TextBefore(DateText(a), DateText(b))
  {
    assert Pow10(2) == 100 && Pow10(4) == 10_000;
    if a.year == b.year {
      if a.month == b.month {
        PadOrder(a.day, b.day, 2);
        TextBeforePrefix("-", Pad(a.day, 2), Pad(b.day, 2));
      }
      FieldOrder(a.month, b.month, 2, "-" + Pad(a.day, 2), "-" + Pad(b.day, 2));
      TextBeforePrefix("-", Pad(a.month, 2) + ("-" + Pad(a.day, 2)), Pad(b.month, 2) + ("-" + Pad(b.day, 2)));
    }
    FieldOrder(a.year, b.year, 4, "-" + (Pad(a.month, 2) + ("-" + Pad(a.day, 2))),
               "-" + (Pad(b.month, 2) + ("-" + Pad(b.day, 2))));
  }

  lemma FieldsTextOrder(d: Date, c: Clock, e: Date, f: Clock)
    requires RealDate(d) && RealDate(e) && 0 <= d.year && 0 <= e.year <= 9999 && RealClock(c) && RealClock(f)
    requires DateBefore(d, e) || (d == e && ClockBefore(c, f))
    ensures TextBefore(FieldsText(d, c), FieldsText(e, f))
  {
    if DateBefore(d, e) {
      DateTextOrder(d, e);
      TextBeforeAppend(DateText(d), DateText(e), "T" + ClockText(c), "T" + ClockText(f));
    } else {
      ClockTextOrder(c, f);
      TextBeforePrefix("T", ClockText(c), ClockText(f));
      TextBeforePrefix(DateText(d), "T" + ClockText(c), "T" + ClockText(f));
    }
  }

  /** Earlier fields, date first and then clock, whenever the instant is earlier. */
  lemma EarlierFields(t: int, u: int)
    requires t < u
    ensures var d, e := DateFromDay(t / MS_PER_DAY), DateFromDay(u / MS_PER_DAY);
            DateBefore(d, e) || (d == e && ClockBefore(ClockFromTime(t), ClockFromTime(u)))
  {
    var d, e := DateFromDay(t / MS_PER_DAY), DateFromDay(u / MS_PER_DAY);
    ClockCovers(t);
    ClockCovers(u);
    if DateBefore(e, d) {
      DayNumberIncreases(e, d);
    }
  }

  lemma IsoTextIncreases(t: int, u: int)
    requires FourDigitYear(t) && FourDigitYear(u) && t < u
    ensures TextBefore(IsoText(t), IsoText(u))
  {
    EarlierFields(t, u);
    FieldsTextOrder(DateFromDay(t / MS_PER_DAY), ClockFromTime(t), DateFromDay(u / MS_PER_DAY), ClockFromTime(u));
  }

  /** Text order and text equality are time order and equality. */
  lemma IsoTextOrder(t: int, u: int)
    requires FourDigitYear(t) && FourDigitYear(u)
    ensures TextBefore(IsoText(t), IsoText(u)) <==> t < u
    ensures IsoText(t) == IsoText(u) <==> t == u
  {
    if t < u {
      IsoTextIncreases(t, u);
      TextBeforeAsymmetric(IsoText(t), IsoText(u));
    } else if u < t {
      IsoTextIncreases(u, t);
      TextBeforeAsymmetric(IsoText(u), IsoText(t));
    } else if TextBefore(IsoText(t), IsoText(t)) {
      TextBeforeAsymmetric(IsoText(t), IsoText(t));
    }
  }

  // ----- the promises -----

  /** Normalising twice is normalising once, on every text. */
  lemma NormalizeIsIdempotent(text: string)
    ensures Normalized(Normalized(text)) == Normalized(text)
  {
    if Accepted(text) {
      IsoTextIsCanonical(InstantOf(text));
      CanonicalIsFixed(Normalized(text));
    }
  }

  /** The output is canonical text for the exact instant cut to the millisecond, and it is itself
      accepted with that instant. */
  lemma NormalizedDenotesInstant(text: string)
    requires Accepted(text)
    ensures var r := Normalized(text);
            && CanonicalShape(r) && Accepted(r)
            && InstantOf(r) == ExactInstantOf(text).Floor
            && ExactInstantOf(r) == InstantOf(r) as real
  {
    var t := InstantOf(text);
    InstantIsFloor(text);
    IsoTextIsCanonical(t);
    IsoTextSpells(t);
    IsoTextDenotes(t);
    CanonicalHasNoMore(t);
  }

  lemma CanonicalHasNoMore(t: int)
    requires FourDigitYear(t) && Grammatical(IsoParts(t)) && Real(MomentOf(IsoParts(t)))
    ensures ExactInstant(IsoParts(t)) == Instant(MomentOf(IsoParts(t))) as real
  {
    var f := IsoParts(t).fraction.value;
    assert FirstThree(f) == f;
    ThreeDigits(f);
    assert 10.0 * FractionValue(f) == DigitValue(f[0]) as real + FractionValue(f[1..]);
    assert 10.0 * FractionValue(f[1..]) == DigitValue(f[1]) as real + FractionValue(f[1..][1..]);
    assert 10.0 * FractionValue(f[1..][1..]) == DigitValue(f[2]) as real;
  }

  /** Text outside the grammar, unreal fields, and instants outside the four-digit years come back
      as they went in. */
  lemma OtherTextIsKept(text: string)
    ensures Normalized(text) != text ==> Accepted(text)
    ensures !CanonicalShape(Normalized(text)) ==> Normalized(text) == text && !Accepted(text)
  {
    if Accepted(text) {
      IsoTextIsCanonical(InstantOf(text));
    }
  }

  /** All spellings of one instant agree, and different instants differ. */
  lemma SpellingsAgree(a: string, b: string)
    requires Accepted(a) && Accepted(b)
    ensures Normalized(a) == Normalized(b) <==> ExactInstantOf(a).Floor == ExactInstantOf(b).Floor
  {
    InstantIsFloor(a);
    InstantIsFloor(b);
    IsoTextOrder(InstantOf(a), InstantOf(b));
  }

  /** An earlier or equal exact instant, whatever its offset and however many digits its fraction
      has, never gives later text. */
  lemma NormalizeIsMonotonic(a: string, b: string)
    requires Accepted(a) && Accepted(b) && ExactInstantOf(a) <= ExactInstantOf(b)
    ensures Normalized(a) == Normalized(b) || TextBefore(Normalized(a), Normalized(b))
    ensures !TextBefore(Normalized(b), Normalized(a))
  {
    InstantIsFloor(a);
    InstantIsFloor(b);
    IsoTextOrder(InstantOf(a), InstantOf(b));
    IsoTextOrder(InstantOf(b), InstantOf(a));
  }

  lemma TimestampMsIsInstant(text: string, engine: string -> Option<int>)
    requires Accepted(text)
    ensures TimestampMs(Some(text), engine) == Some(InstantOf(text))
  {
    NormalizedDenotesInstant(text);
    InstantIsFloor(text);
  }

  /** Output text sorts exactly as `timestampMs` does. */
  lemma TextOrderIsTimeOrder(a: string, b: string, engine: string -> Option<int>)
    requires Accepted(a) && Accepted(b)
    ensures TimestampMs(Some(a), engine).Some? && TimestampMs(Some(b), engine).Some?
    ensures TextBefore(Normalized(a), Normalized(b))
            <==> TimestampMs(Some(a), engine).value < TimestampMs(Some(b), engine).value
  {
    TimestampMsIsInstant(a, engine);
    TimestampMsIsInstant(b, engine);
    IsoTextOrder(InstantOf(a), InstantOf(b));
  }
}
