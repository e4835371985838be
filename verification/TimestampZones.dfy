/** What a zone, and what an absent field, means in a timestamp: shared/time.ts, said over the digits. */
module TimestampZones {
  import opened Wrappers
  import opened Digits
  import opened Calendar
  import opened TimestampText
  import opened Timestamp
  import opened TimestampOrder

  /** The number two digits spell; 48 is the code of '0'. */
  function Number(s: string): int
    requires |s| == 2
  {
    10 * (s[0] as int - 48) + (s[1] as int - 48)
  }

  lemma NumberIsValue(s: string)
    requires TwoDigits(s)
    ensures Value(s) == Number(s)
  {
    assert s[..1][..0] == "" && Value(s[..1]) == DigitValue(s[0]);
  }

  lemma TwoDigitsAre(s: string)
    ensures TwoDigits(s) <==> |s| == 2 && 48 <= s[0] as int <= 57 && 48 <= s[1] as int <= 57
  {
  }

  lemma HoursAre(s: string)
    requires TwoDigits(s)
    ensures ZoneHours(s) <==> Number(s) < 24
    ensures ZoneMinutes(s) <==> Number(s) < 60
  {
  }

  /** A zone is nothing, a `Z`, or a sign and hours to 23, alone or with minutes to 59. */
  lemma ZoneIff(z: string)
    ensures Zone(z) <==>
              || z == "" || z == "Z" || z == "z"
              || (&& |z| >= 3 && (z[0] == '+' || z[0] == '-') && TwoDigits(z[1..3]) && Number(z[1..3]) < 24
                  && (|| |z| == 3
                      || (|z| == 5 && TwoDigits(z[3..]) && Number(z[3..]) < 60)
                      || (|z| == 6 && z[3] == ':' && TwoDigits(z[4..]) && Number(z[4..]) < 60)))
  {
    if |z| >= 3 && TwoDigits(z[1..3]) {
      HoursAre(z[1..3]);
      if |z| == 5 && TwoDigits(z[3..]) {
        HoursAre(z[3..]);
      }
      if |z| == 6 && TwoDigits(z[4..]) {
        HoursAre(z[4..]);
      }
    }
  }

  function InZone(p: Parts, zone: string): Parts {
    p.(zone := zone)
  }

  /** Fields with their zone left open, real ones. */
  ghost predicate RealFields(p: Parts) {
    Grammatical(InZone(p, "Z")) && Real(MomentOf(InZone(p, "Z")))
  }

  /** The zones of `h` hours and `m` minutes, ahead of UTC or behind it. */
  function Colon(sign: char, h: string, m: string): string {
    [sign] + h + [':'] + m
  }

  function Plain(sign: char, h: string, m: string): string {
    [sign] + h + m
  }

  function HoursOnly(sign: char, h: string): string {
    [sign] + h
  }

  predicate HoursAndMinutes(h: string, m: string) {
    TwoDigits(h) && Number(h) < 24 && TwoDigits(m) && Number(m) < 60
  }

  lemma OffsetsAre(sign: char, h: string, m: string)
    requires (sign == '+' || sign == '-') && HoursAndMinutes(h, m)
    ensures var minutes := if sign == '+' then 60 * Number(h) + Number(m) else -(60 * Number(h) + Number(m));
            && Zone(Colon(sign, h, m)) && OffsetMinutes(Colon(sign, h, m)) == minutes
            && Zone(Plain(sign, h, m)) && OffsetMinutes(Plain(sign, h, m)) == minutes
  {
    HoursAre(h);
    HoursAre(m);
    NumberIsValue(h);
    NumberIsValue(m);
    var c, p := Colon(sign, h, m), Plain(sign, h, m);
    assert c[1..3] == h && c[4..] == m && p[1..3] == h && p[3..] == m;
  }

  lemma HourOffsetsAre(sign: char, h: string)
    requires (sign == '+' || sign == '-') && HoursAndMinutes(h, "00")
    ensures var minutes := if sign == '+' then 60 * Number(h) else -(60 * Number(h));
            Zone(HoursOnly(sign, h)) && OffsetMinutes(HoursOnly(sign, h)) == minutes
  {
    HoursAre(h);
    NumberIsValue(h);
    assert HoursOnly(sign, h)[1..3] == h;
  }

  /** With the other fields fixed, an instant under `+hh:mm` is that many hours and minutes before the one
      under `Z`, and under `-hh:mm` as much after it; without the colon they are the same, and so are hours
      alone and hours with `00`. */
  lemma ZoneShifts(p: Parts, h: string, m: string)
    requires RealFields(p) && HoursAndMinutes(h, m)
    ensures var shift := ((60 * Number(h) + Number(m)) * 60_000) as real;
            && At(p, Colon('+', h, m)) && At(p, Colon('-', h, m)) && At(p, Plain('+', h, m)) && At(p, Plain('-', h, m))
            && InstantIn(p, Colon('+', h, m)) == InstantIn(p, "Z") - shift == InstantIn(p, Plain('+', h, m))
            && InstantIn(p, Colon('-', h, m)) == InstantIn(p, "Z") + shift == InstantIn(p, Plain('-', h, m))
  {
    OffsetsAre('+', h, m);
    OffsetsAre('-', h, m);
  }

  lemma HoursAlone(p: Parts, sign: char, h: string)
    requires RealFields(p) && (sign == '+' || sign == '-') && HoursAndMinutes(h, "00")
    ensures At(p, HoursOnly(sign, h)) && At(p, Colon(sign, h, "00"))
    ensures InstantIn(p, HoursOnly(sign, h)) == InstantIn(p, Colon(sign, h, "00"))
  {
    OffsetsAre(sign, h, "00");
    HourOffsetsAre(sign, h);
  }

  ghost predicate At(p: Parts, zone: string) {
    Grammatical(InZone(p, zone)) && Real(MomentOf(InZone(p, zone)))
  }

  /** The exact instant of the fields in a zone. */
  ghost function InstantIn(p: Parts, zone: string): real
    requires At(p, zone)
  {
    ExactInstant(InZone(p, zone))
  }

  /** What may be left out means nothing: no zone is UTC, no seconds are `00`, no fraction is `0`. */
  lemma AbsentFields(p: Parts)
    requires RealFields(p)
    ensures At(p, "") && InstantIn(p, "") == InstantIn(p, "Z")
    ensures At(p, "z") && InstantIn(p, "z") == InstantIn(p, "Z")
    ensures p.second.None? ==> At(p.(second := Some("00")), "Z")
                               && InstantIn(p.(second := Some("00")), "Z") == InstantIn(p, "Z")
    ensures p.fraction.None? ==> At(p.(fraction := Some("0")), "Z")
                                 && InstantIn(p.(fraction := Some("0")), "Z") == InstantIn(p, "Z")
  {
    NumberIsValue("00");
    ZeroFraction();
  }

  lemma ZeroFraction()
    ensures FractionToMilliseconds(Some("0")) == 0 && FractionValue("0") == 0.0
  {
    var f := FirstThree("0");
    assert f == "000";
    ThreeDigits(f);
  }

  lemma FourDigits(s: string)
    requires AllDigits(s) && |s| == 4
    ensures Value(s) == 1000 * DigitValue(s[0]) + 100 * DigitValue(s[1]) + 10 * DigitValue(s[2]) + DigitValue(s[3])
  {
    assert s == s[..3] + [s[3]];
    ThreeDigits(s[..3]);
    ValueAppend(s[..3], s[3]);
  }

  // ----- an example -----

  const LOCAL := Parts("2026", "09", "09", ' ', "19", "46", Some("47"), Some("89"), "+05:30")
  const UTC := Parts("2026", "09", "09", 'T', "14", "16", Some("47"), Some("890"), "Z")

  lemma ExampleDate()
    ensures Value("2026") == 2026 && Value("09") == 9 && RealDate(Date(2026, 9, 9))
  {
    FourDigits("2026");
    NumberIsValue("09");
  }

  lemma LocalFields()
    ensures Grammatical(LOCAL) && MomentOf(LOCAL) == Moment(Date(2026, 9, 9), Clock(19, 46, 47, 890), 330)
  {
    ExampleDate();
    NumberIsValue("19");
    NumberIsValue("46");
    NumberIsValue("47");
    assert FirstThree("89") == "890";
    ThreeDigits("890");
    assert Colon('+', "05", "30") == "+05:30";
    OffsetsAre('+', "05", "30");
  }

  lemma UtcFields()
    ensures Grammatical(UTC) && MomentOf(UTC) == Moment(Date(2026, 9, 9), Clock(14, 16, 47, 890), 0)
  {
    ExampleDate();
    NumberIsValue("14");
    NumberIsValue("16");
    NumberIsValue("47");
    assert FirstThree("890") == "890";
    ThreeDigits("890");
  }

  lemma ExampleFractions()
    ensures FractionValue("89") == 0.89 == FractionValue("890")
  {
    assert "89"[1..] == "9" && "9"[1..] == "" && "890"[1..] == "90" && "90"[1..] == "0" && "0"[1..] == "";
    assert FractionValue("9") == 0.9 && FractionValue("0") == 0.0 && FractionValue("90") == 0.9;
  }

  /** Two spellings of one day whose clocks differ by their offsets. */
  lemma SameInstant(p: Parts, q: Parts, d: Date, c: Clock, e: Clock, offset: int)
    requires Grammatical(p) && MomentOf(p) == Moment(d, c, offset) && Grammatical(q) && MomentOf(q) == Moment(d, e, 0)
    requires RealDate(d) && 0 <= d.year <= 9999 && RealClock(c) && RealClock(e)
    requires MakeTime(c) - offset * MS_PER_MINUTE == MakeTime(e) && c.milli == e.milli
    requires p.fraction.Some? && q.fraction.Some? && FractionValue(p.fraction.value) == FractionValue(q.fraction.value)
    ensures Accepted(Spelling(p)) && Accepted(Spelling(q))
    ensures ExactInstantOf(Spelling(p)) == ExactInstantOf(Spelling(q))
  {
    var t := DayNumber(d) * MS_PER_DAY + MakeTime(e);
    InYear(d, e);
    SpelledInstant(p, t);
    SpelledInstant(q, t);
  }

  lemma InYear(d: Date, e: Clock)
    requires RealDate(d) && 0 <= d.year <= 9999 && RealClock(e)
    ensures FourDigitYear(DayNumber(d) * MS_PER_DAY + MakeTime(e))
  {
    DayNumberInverts(d);
    ClockInverts(DayNumber(d), e);
  }

  lemma SpelledInstant(p: Parts, t: int)
    requires Grammatical(p) && Real(MomentOf(p)) && Instant(MomentOf(p)) == t && FourDigitYear(t)
    ensures Accepted(Spelling(p)) && ExactInstantOf(Spelling(p)) == ExactInstant(p)
  {
    MatchComplete(p);
  }

  /** Text for an instant is normalised to the canonical text for it. */
  lemma NormalizesTo(text: string, canonical: string)
    requires Accepted(text) && Accepted(canonical) && ExactInstantOf(text) == ExactInstantOf(canonical)
    requires CanonicalShape(canonical)
    ensures Normalized(text) == canonical
  {
    SpellingsAgree(text, canonical);
    CanonicalIsFixed(canonical);
  }

  lemma LocalText()
    ensures Spelling(LOCAL) == "2026-09-09 19:46:47.89+05:30"
  {
    assert HeadText(LOCAL) == "-09-09 19:46";
  }

  lemma UtcText()
    ensures Spelling(UTC) == "2026-09-09T14:16:47.890Z"
  {
    assert HeadText(UTC) == "-09-09T14:16";
  }

  /** Five and a half hours ahead of UTC. */
  lemma NormalizeExample()
    ensures Normalized("2026-09-09 19:46:47.89+05:30") == "2026-09-09T14:16:47.890Z"
  {
    LocalText();
    UtcText();
    ExampleDate();
    LocalFields();
    UtcFields();
    ExampleFractions();
    SameInstant(LOCAL, UTC, Date(2026, 9, 9), Clock(19, 46, 47, 890), Clock(14, 16, 47, 890), 330);
    ShapeSpells(UTC);
    ShapeIsCanonical(UTC, Spelling(UTC));
    NormalizesTo(Spelling(LOCAL), Spelling(UTC));
  }
}
