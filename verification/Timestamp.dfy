/** Timestamp canonicalisation: shared/time.ts.

    `Normalized` says what the conversion means: the instant a text denotes, rendered as fixed-width
    UTC.  `NormalizeTimestamp` is the conversion as written: fields rolled into a mutable date, read
    back, shifted by the offset and printed.  Its postcondition equates the two on every text. */
module Timestamp {
  import opened Wrappers
  import opened Digits
  import opened Calendar
  import opened TimestampText

  const MS_PER_DAY := 86_400_000
  const MS_PER_HOUR := 3_600_000
  const MS_PER_MINUTE := 60_000
  /** The furthest instant a `Date` can hold, either side of the epoch. */
  const MAX_TIME := 8_640_000_000_000_000

  // ----- clock fields -----

  datatype Clock = Clock(hour: int, minute: int, second: int, milli: int)

  predicate RealClock(c: Clock) {
    0 <= c.hour < 24 && 0 <= c.minute < 60 && 0 <= c.second < 60 && 0 <= c.milli < 1000
  }

  function MakeTime(c: Clock): int {
    c.hour * MS_PER_HOUR + c.minute * MS_PER_MINUTE + c.second * 1000 + c.milli
  }

  function ClockFromTime(t: int): (c: Clock)
    ensures RealClock(c)
  {
    Clock(t / MS_PER_HOUR % 24, t / MS_PER_MINUTE % 60, t / 1000 % 60, t % 1000)
  }

  /** Whole milliseconds split into seconds, minutes, hours and days one unit at a time. */
  lemma UnitsNest(t: int)
    ensures t / MS_PER_MINUTE == t / 1000 / 60
    ensures t / MS_PER_HOUR == t / MS_PER_MINUTE / 60
    ensures t / MS_PER_DAY == t / MS_PER_HOUR / 24
  {
  }

  lemma ClockInverts(day: int, c: Clock)
    requires RealClock(c)
    ensures ClockFromTime(day * MS_PER_DAY + MakeTime(c)) == c
    ensures (day * MS_PER_DAY + MakeTime(c)) / MS_PER_DAY == day
  {
    var hours := day * 24 + c.hour;
    var minutes := hours * 60 + c.minute;
    var seconds := minutes * 60 + c.second;
    var t := day * MS_PER_DAY + MakeTime(c);
    assert t == seconds * 1000 + c.milli;
    UnitsNest(t);
    assert t / 1000 == seconds;
    assert t / MS_PER_MINUTE == minutes;
    assert t / MS_PER_HOUR == hours;
  }

  lemma ClockCovers(t: int)
    ensures t / MS_PER_DAY * MS_PER_DAY + MakeTime(ClockFromTime(t)) == t
  {
    UnitsNest(t);
  }

  // ----- what the groups denote -----

  /** Fields and the zone's offset in minutes. */
  datatype Moment = Moment(date: Date, clock: Clock, offset: int)

  /** The fields name a day of the calendar and a time of that day. */
  predicate Real(m: Moment) {
    RealDate(m.date) && RealClock(m.clock)
  }

  /** Milliseconds since the epoch of real fields in their zone. */
  function Instant(m: Moment): int
    requires Real(m)
  {
    DayNumber(m.date) * MS_PER_DAY + MakeTime(m.clock) - m.offset * MS_PER_MINUTE
  }

  /** The first three digits of the fraction, with zeros for missing ones; no fraction is 0. */
  function FractionToMilliseconds(fraction: Option<string>): int
    requires fraction.Some? ==> AllDigits(fraction.value)
  {
    if fraction.None? then 0 else Value(FirstThree(fraction.value))
  }

  function FirstThree(f: string): (s: string)
    requires AllDigits(f)
    ensures |s| == 3 && AllDigits(s)
  {
    if |f| >= 3 then f[..3] else if |f| == 2 then f + "0" else if |f| == 1 then f + "00" else "000"
  }

  /** How many minutes ahead of UTC a zone is; none is UTC. */
  function OffsetMinutes(zone: string): int
    requires Zone(zone)
  {
    if zone == "" || zone == "Z" || zone == "z" then 0 else
    var sign := if zone[0] == '-' then -1 else 1;
    var minutes := if |zone| == 5 then Value(zone[3..]) else if |zone| == 6 then Value(zone[4..]) else 0;
    sign * (Value(zone[1..3]) * 60 + minutes)
  }

  function MomentOf(p: Parts): Moment
    requires Grammatical(p)
  {
    Moment(Date(Value(p.year), Value(p.month), Value(p.day)),
           Clock(Value(p.hour), Value(p.minute), if p.second.Some? then Value(p.second.value) else 0,
                 FractionToMilliseconds(p.fraction)),
           OffsetMinutes(p.zone))
  }

  /** The value of the digits after a decimal point. */
  function FractionValue(f: string): (x: real)
    requires AllDigits(f)
    ensures 0.0 <= x < 1.0
  {
    if f == [] then 0.0 else (DigitValue(f[0]) as real + FractionValue(f[1..])) / 10.0
  }

  /** The exact instant in milliseconds, with every digit of the fraction. */
  function ExactInstant(p: Parts): real
    requires Grammatical(p) && Real(MomentOf(p))
  {
    var wholeSeconds := Instant(MomentOf(p)) - MomentOf(p).clock.milli;
    wholeSeconds as real + (if p.fraction.Some? then 1000.0 * FractionValue(p.fraction.value) else 0.0)
  }

  // ----- rendering -----

  function YearOf(t: int): int {
    DateFromDay(t / MS_PER_DAY).year
  }

  predicate FourDigitYear(t: int) {
    0 <= YearOf(t) <= 9999
  }

  /** `YYYY-MM-DDTHH:MM:SS.sssZ`. */
  function FieldsText(d: Date, c: Clock): string
    requires 0 <= d.year && 0 <= d.month && 0 <= d.day && RealClock(c)
  {
    DateText(d) + ("T" + ClockText(c))
  }

  function DateText(d: Date): string
    requires 0 <= d.year && 0 <= d.month && 0 <= d.day
  {
    Pad(d.year, 4) + ("-" + (Pad(d.month, 2) + ("-" + Pad(d.day, 2))))
  }

  function ClockText(c: Clock): string
    requires RealClock(c)
  {
    Pad(c.hour, 2) + (":" + (Pad(c.minute, 2) + (":" + (Pad(c.second, 2) + ("." + (Pad(c.milli, 3) + "Z"))))))
  }

  /** The fixed-width UTC rendering of an instant. */
  function IsoText(t: int): string
    requires FourDigitYear(t)
  {
    FieldsText(DateFromDay(t / MS_PER_DAY), ClockFromTime(t))
  }

  // ----- the conversion, by meaning -----

  /** The fields are real and their instant has a four-digit UTC year. */
  predicate Convertible(m: Moment) {
    Real(m) && FourDigitYear(Instant(m))
  }

  predicate Accepted(text: string) {
    MatchSound(text);
    Match(text).Some? && Convertible(MomentOf(Match(text).value))
  }

  function Normalized(text: string): string {
    MatchSound(text);
    if Accepted(text) then IsoText(Instant(MomentOf(Match(text).value))) else text
  }

  // ----- the conversion, as written -----

  /** Exactly `dddd-dd-ddTdd:dd:dd.dddZ`, whatever the digits. */
  predicate CanonicalShape(s: string) {
    && |s| == 24
    && AllDigits(s[..4]) && s[4] == '-' && TwoDigits(s[5..7]) && s[7] == '-' && TwoDigits(s[8..10]) && s[10] == 'T'
    && TwoDigits(s[11..13]) && s[13] == ':' && TwoDigits(s[14..16]) && s[16] == ':' && TwoDigits(s[17..19])
    && s[19] == '.' && AllDigits(s[20..23]) && s[23] == 'Z'
  }

  function TimeClip(t: int): Option<int> {
    if -MAX_TIME <= t <= MAX_TIME then Some(t) else None
  }

  /** `Date.prototype.toISOString`: years outside four digits get a sign and six digits. */
  function ToIsoString(t: int): string {
    var d, c := DateFromDay(t / MS_PER_DAY), ClockFromTime(t);
    if 0 <= d.year <= 9999 then FieldsText(d, c) else ExpandedText(d, c)
  }

  function ExpandedText(d: Date, c: Clock): string
    requires 0 <= d.month && 0 <= d.day && RealClock(c)
  {
    (if d.year < 0 then "-" + Pad(-d.year, 6) else "+" + Pad(d.year, 6))
    + ("-" + Pad(d.month, 2) + "-" + Pad(d.day, 2) + "T" + ClockText(c))
  }

  /** A JavaScript `Date`: its time value, `None` for an invalid date. */
  class UtcDate {
    var time: Option<int>

    constructor (t: int)
      ensures time == TimeClip(t)
    {
      time := TimeClip(t);
    }

    /** Sets year, zero-based month and day of month; fields out of range roll over. */
    method SetUtcFullYear(d: Date) returns (ghost day: int)
      modifies this
      ensures day == MakeDay(d.year, d.month - 1, d.day) && (RealDate(d) ==> day == DayNumber(d))
      ensures time == TimeClip(day * MS_PER_DAY + (if old(time).Some? then old(time).value % MS_PER_DAY else 0))
    {
      var rolled := MakeDay(d.year, d.month - 1, d.day);
      if RealDate(d) {
        MakeDayCounts(d);
      }
      PutDay(rolled);
      day := rolled;
    }

    method PutDay(day: int)
      modifies this
      ensures time == TimeClip(day * MS_PER_DAY + (if old(time).Some? then old(time).value % MS_PER_DAY else 0))
    {
      var timeInDay := if time.Some? then time.value % MS_PER_DAY else 0;
      time := TimeClip(day * MS_PER_DAY + timeInDay);
    }

    /** Sets the time of day; fields out of range roll over. An invalid date stays invalid. */
    method SetUtcHours(c: Clock)
      modifies this
      ensures time == if old(time).None? then None
                      else TimeClip(old(time).value / MS_PER_DAY * MS_PER_DAY + MakeTime(c))
    {
      if time.Some? {
        time := TimeClip(time.value / MS_PER_DAY * MS_PER_DAY + MakeTime(c));
      }
    }

    method SetTime(t: int)
      modifies this
      ensures time == TimeClip(t)
    {
      time := TimeClip(t);
    }
  }

  /** The time value once the setters have rolled a day and then a time of day in. */
  function RolledIn(day: int, c: Clock): Option<int> {
    if TimeClip(day * MS_PER_DAY).None? then None else TimeClip(day * MS_PER_DAY + MakeTime(c))
  }

  /** Every field read off the date is the field that was put in. */
  predicate ReadsBack(t: int, m: Moment) {
    var c := ClockFromTime(t);
    && DateFromDay(t / MS_PER_DAY) == m.date
    && c.hour == m.clock.hour && c.minute == m.clock.minute && c.second == m.clock.second
  }

  method NormalizeTimestamp(value: Option<string>) returns (r: Option<string>)
    ensures r == match value case None => None case Some(text) => Some(Normalized(text))
  {
    if value.None? {
      return value;
    }
    var text := value.value;
    if CanonicalShape(text) {
      CanonicalIsFixed(text);
      return value;
    }
    MatchSound(text);
    var groups := Match(text);
    if groups.None? {
      return value;
    }
    var iso := Convert(MomentOf(groups.value), groups.value);
    return if iso.Some? then iso else value;
  }

  method RollFieldsIn(m: Moment) returns (instant: UtcDate, ghost day: int)
    ensures fresh(instant) && instant.time == RolledIn(day, m.clock)
    ensures RealDate(m.date) ==> day == DayNumber(m.date)
  {
    instant := new UtcDate(0);
    day := instant.SetUtcFullYear(m.date);
    assert instant.time == TimeClip(day * MS_PER_DAY);
    WholeDays(day);
    instant.SetUtcHours(m.clock);
  }

  lemma WholeDays(day: int)
    ensures day * MS_PER_DAY / MS_PER_DAY == day
  {
  }

  /** The second half of the conversion, from the matched groups on. */
  method Convert(m: Moment, ghost p: Parts) returns (iso: Option<string>)
    requires Grammatical(p) && m == MomentOf(p)
    ensures iso == if Convertible(m) then Some(IsoText(Instant(m))) else None
  {
    MomentBounds(p);
    iso := ReadBackAndShift(m);
  }

  method ReadBackAndShift(m: Moment) returns (iso: Option<string>)
    requires Plausible(m)
    ensures iso == if Convertible(m) then Some(IsoText(Instant(m))) else None
  {
    var instant, day := RollFieldsIn(m);
    ReadBackIffReal(m, day);
    if instant.time.None? || !ReadsBack(instant.time.value, m) {
      return None;
    }
    instant.SetTime(instant.time.value - m.offset * MS_PER_MINUTE);
    if instant.time.None? {
      return None;
    }
    var t := instant.time.value;
    assert t == Instant(m);
    IsoTextIsCanonical(t);
    var text := ToIsoString(t);
    return if CanonicalShape(text) then Some(text) else None;
  }

  // ----- proofs -----

  /** A day is no earlier than the start of its year or of an earlier one. */
  lemma NotBeforeYear(d: Date, y: int)
    requires RealDate(d) && y <= d.year
    ensures DayFromYear(y) <= DayNumber(d)
  {
    YearsAgree(y);
    DayWithinYear(d);
    if y < d.year {
      YearsIncrease(y, d.year);
    }
  }

  lemma BeforeYear(d: Date, y: int)
    requires RealDate(d) && d.year < y
    ensures DayNumber(d) < DayFromYear(y)
  {
    YearsAgree(y);
    DayWithinYear(d);
    YearsIncrease(d.year, y);
  }

  /** The days of the four-digit years. */
  lemma DayNumberBounds(d: Date)
    requires RealDate(d)
    ensures 0 <= d.year ==> -719_528 <= DayNumber(d)
    ensures d.year <= 9999 ==> DayNumber(d) < 2_932_897
  {
    assert DayFromYear(0) == -719_528 && DayFromYear(10_000) == 2_932_897;
    if 0 <= d.year {
      NotBeforeYear(d, 0);
    }
    if d.year <= 9999 {
      BeforeYear(d, 10_000);
    }
  }

  lemma FourDigitBounds(t: int)
    requires FourDigitYear(t)
    ensures -719_528 * MS_PER_DAY <= t < 2_932_897 * MS_PER_DAY
  {
    DayNumberBounds(DateFromDay(t / MS_PER_DAY));
  }

  lemma TwoDigitValue(s: string)
    requires TwoDigits(s)
    ensures Value(s) == 10 * DigitValue(s[0]) + DigitValue(s[1])
  {
    assert s[..1][..0] == [];
    assert Value(s[..1]) == DigitValue(s[0]);
  }

  predicate Plausible(m: Moment) {
    0 <= m.date.year && 0 <= m.clock.milli < 1000 && -1440 < m.offset < 1440
  }

  lemma OffsetBounds(zone: string)
    requires Zone(zone)
    ensures -1440 < OffsetMinutes(zone) < 1440
  {
    if |zone| >= 3 {
      TwoDigitValue(zone[1..3]);
      if |zone| == 5 {
        TwoDigitValue(zone[3..]);
      } else if |zone| == 6 {
        TwoDigitValue(zone[4..]);
      }
    }
  }

  /** What the grammar alone bounds. */
  lemma MomentBounds(p: Parts)
    requires Grammatical(p)
    ensures Plausible(MomentOf(p))
  {
    OffsetBounds(p.zone);
    assert Pow10(3) == 1000;
    if p.fraction.Some? {
      PadOfValue(FirstThree(p.fraction.value));
    }
  }

  lemma FieldsReadBack(m: Moment)
    requires Real(m)
    ensures ReadsBack(DayNumber(m.date) * MS_PER_DAY + MakeTime(m.clock), m)
    ensures ClockFromTime(DayNumber(m.date) * MS_PER_DAY + MakeTime(m.clock)) == m.clock
  {
    DayNumberInverts(m.date);
    ClockInverts(DayNumber(m.date), m.clock);
  }

  /** The instant of real fields in their own zone. */
  function Local(m: Moment): int
    requires Real(m)
  {
    DayNumber(m.date) * MS_PER_DAY + MakeTime(m.clock)
  }

  lemma LocalBounds(m: Moment)
    requires Real(m) && 0 <= m.date.year
    ensures -719_528 * MS_PER_DAY <= DayNumber(m.date) * MS_PER_DAY <= Local(m)
    ensures DayNumber(m.date) * MS_PER_DAY <= MAX_TIME || Local(m) > MAX_TIME
  {
    DayNumberBounds(m.date);
  }

  lemma RolledInIsLocal(m: Moment, day: int)
    requires Plausible(m) && Real(m) && day == DayNumber(m.date)
    ensures RolledIn(day, m.clock) == if Local(m) <= MAX_TIME then Some(Local(m)) else None
  {
    LocalBounds(m);
  }

  lemma ConvertibleFits(m: Moment)
    requires Plausible(m) && Convertible(m)
    ensures Local(m) <= MAX_TIME && TimeClip(Instant(m)) == Some(Instant(m))
  {
    FourDigitBounds(Instant(m));
    assert Local(m) == Instant(m) + m.offset * MS_PER_MINUTE;
  }

  /** The fields read back unchanged exactly when they are a real date and time of day that a `Date`
      can hold. */
  lemma ReadBackIffReal(m: Moment, day: int)
    requires Plausible(m) && (RealDate(m.date) ==> day == DayNumber(m.date))
    ensures RolledIn(day, m.clock).Some? && ReadsBack(RolledIn(day, m.clock).value, m)
            <==> Real(m) && Instant(m) + m.offset * MS_PER_MINUTE <= MAX_TIME
    ensures Real(m) && RolledIn(day, m.clock).Some? ==>
              RolledIn(day, m.clock).value == Instant(m) + m.offset * MS_PER_MINUTE
    ensures Convertible(m) ==>
              Instant(m) + m.offset * MS_PER_MINUTE <= MAX_TIME && TimeClip(Instant(m)) == Some(Instant(m))
  {
    if Real(m) {
      FieldsReadBack(m);
      RolledInIsLocal(m, day);
      if FourDigitYear(Instant(m)) {
        ConvertibleFits(m);
      }
    } else if RolledIn(day, m.clock).Some? && ReadsBack(RolledIn(day, m.clock).value, m) {
      ReadBackIsReal(RolledIn(day, m.clock).value, m);
    }
  }

  lemma ReadBackIsReal(t: int, m: Moment)
    requires Plausible(m) && ReadsBack(t, m)
    ensures Real(m)
  {
  }

  /** The groups of fixed-width text. */
  function FieldsParts(d: Date, c: Clock): Parts
    requires 0 <= d.year && 0 <= d.month && 0 <= d.day && RealClock(c)
  {
    Parts(Pad(d.year, 4), Pad(d.month, 2), Pad(d.day, 2), 'T', Pad(c.hour, 2), Pad(c.minute, 2),
          Some(Pad(c.second, 2)), Some(Pad(c.milli, 3)), "Z")
  }

  function IsoParts(t: int): Parts
    requires FourDigitYear(t)
  {
    FieldsParts(DateFromDay(t / MS_PER_DAY), ClockFromTime(t))
  }

  /** `dddd-dd-ddTdd:dd:dd.dddZ` over any groups. */
  function ShapeText(p: Parts, second: string, fraction: string): string {
    p.year + ("-" + (p.month + ("-" + p.day)))
      + ("T" + (p.hour + (":" + (p.minute + (":" + (second + ("." + (fraction + "Z"))))))))
  }

  lemma ShapeSpells(p: Parts)
    requires p.second.Some? && p.fraction.Some? && p.zone == "Z" && p.sep == 'T'
    ensures ShapeText(p, p.second.value, p.fraction.value) == Spelling(p)
  {
    var s, f := p.second.value, p.fraction.value;
    assert HeadText(p) + (SecondText(p) + (FractionText(p) + p.zone))
           == "-" + (p.month + ("-" + p.day)) + ("T" + (p.hour + (":" + (p.minute + (":" + (s + ("." + (f + "Z"))))))));
  }

  lemma FieldsSpell(d: Date, c: Clock)
    requires 0 <= d.year && 0 <= d.month && 0 <= d.day && RealClock(c)
    ensures Grammatical(FieldsParts(d, c)) && FieldsText(d, c) == Spelling(FieldsParts(d, c))
  {
    ShapeSpells(FieldsParts(d, c));
  }

  lemma IsoTextSpells(t: int)
    requires FourDigitYear(t)
    ensures Match(IsoText(t)) == Some(IsoParts(t))
  {
    FieldsSpell(DateFromDay(t / MS_PER_DAY), ClockFromTime(t));
    MatchComplete(IsoParts(t));
  }

  lemma ShapeIsCanonical(p: Parts, s: string)
    requires Grammatical(p) && |p.year| == 4 && p.second.Some? && p.fraction.Some? && |p.fraction.value| == 3
    requires p.zone == "Z" && p.sep == 'T' && s == ShapeText(p, p.second.value, p.fraction.value)
    ensures CanonicalShape(s)
  {
    DateShape(s, p.year, p.month, p.day, s[10..]);
    var time := "T" + (p.hour + (":" + (p.minute + (":" + (p.second.value + ("." + (p.fraction.value + "Z")))))));
    assert s == (p.year + ("-" + (p.month + ("-" + p.day)))) + time;
    assert s[10..] == time;
    TimeShape(time, p.hour, p.minute, p.second.value, p.fraction.value);
    assert forall i :: 10 <= i < 24 ==> s[i] == time[i - 10];
    assert s[11..13] == time[1..3] && s[14..16] == time[4..6] && s[17..19] == time[7..9] && s[20..23] == time[10..13];
  }

  lemma DateShape(s: string, year: string, month: string, day: string, rest: string)
    requires |year| == 4 && |month| == 2 && |day| == 2
    requires s == year + ("-" + (month + ("-" + day))) + rest
    ensures |s| == 10 + |rest| && s[..4] == year && s[4] == '-' && s[5..7] == month && s[7] == '-' && s[8..10] == day
  {
  }

  lemma TimeShape(s: string, hour: string, minute: string, second: string, fraction: string)
    requires |hour| == 2 && |minute| == 2 && |second| == 2 && |fraction| == 3
    requires s == "T" + (hour + (":" + (minute + (":" + (second + ("." + (fraction + "Z")))))))
    ensures |s| == 14 && s[0] == 'T' && s[1..3] == hour && s[3] == ':' && s[4..6] == minute && s[6] == ':'
    ensures s[7..9] == second && s[9] == '.' && s[10..13] == fraction && s[13] == 'Z'
  {
    var tail := second + ("." + (fraction + "Z"));
    assert tail[..2] == second && tail[2] == '.' && tail[3..6] == fraction && tail[6] == 'Z';
    assert s[7..] == tail;
    assert s[7..9] == tail[..2] && s[10..13] == tail[3..6];
  }

  lemma CanonicalIsShape(s: string) returns (p: Parts)
    requires CanonicalShape(s)
    ensures Grammatical(p) && |p.year| == 4 && p.second.Some? && p.fraction.Some? && |p.fraction.value| == 3
    ensures p.zone == "Z" && p.sep == 'T' && s == ShapeText(p, p.second.value, p.fraction.value)
  {
    p := Parts(s[..4], s[5..7], s[8..10], 'T', s[11..13], s[14..16], Some(s[17..19]), Some(s[20..23]), "Z");
    DateAndTimePieces(s);
  }

  lemma DateAndTimePieces(s: string)
    requires |s| == 24
    ensures s == s[..4] + ([s[4]] + (s[5..7] + ([s[7]] + s[8..10])))
                 + ([s[10]]
                    + (s[11..13] + ([s[13]] + (s[14..16]
                    + ([s[16]] + (s[17..19] + ([s[19]] + (s[20..23] + [s[23]]))))))))
  {
    var t := s[10..];
    assert s[..10] == s[..4] + ([s[4]] + (s[5..7] + ([s[7]] + s[8..10])));
    assert t[7..] == s[17..19] + ([s[19]] + (s[20..23] + [s[23]]));
    assert t == [s[10]] + (s[11..13] + ([s[13]] + (s[14..16] + ([s[16]] + t[7..]))));
    assert s == s[..10] + t;
  }

  lemma IsoTextIsCanonical(t: int)
    ensures CanonicalShape(ToIsoString(t)) <==> FourDigitYear(t)
  {
    var d, c := DateFromDay(t / MS_PER_DAY), ClockFromTime(t);
    if FourDigitYear(t) {
      FieldsSpell(d, c);
      ShapeIsCanonical(FieldsParts(d, c), FieldsText(d, c));
    } else {
      assert ExpandedText(d, c)[..4][0] == ExpandedText(d, c)[0];
    }
  }

  lemma DateDenotes(d: Date)
    requires 0 <= d.year <= 9999 && RealDate(d)
    ensures Date(Value(Pad(d.year, 4)), Value(Pad(d.month, 2)), Value(Pad(d.day, 2))) == d
  {
    assert Pow10(2) == 100 && Pow10(4) == 10_000;
    ValueOfPad(d.year, 4);
    ValueOfPad(d.month, 2);
    ValueOfPad(d.day, 2);
  }

  lemma ClockDenotes(c: Clock)
    requires RealClock(c)
    ensures Clock(Value(Pad(c.hour, 2)), Value(Pad(c.minute, 2)), Value(Pad(c.second, 2)), Value(Pad(c.milli, 3))) == c
  {
    assert Pow10(2) == 100 && Pow10(3) == 1000;
    ValueOfPad(c.hour, 2);
    ValueOfPad(c.minute, 2);
    ValueOfPad(c.second, 2);
    ValueOfPad(c.milli, 3);
  }

  lemma FieldsDenote(d: Date, c: Clock)
    requires RealDate(d) && 0 <= d.year <= 9999 && RealClock(c)
    ensures Grammatical(FieldsParts(d, c)) && MomentOf(FieldsParts(d, c)) == Moment(d, c, 0)
  {
    FieldsSpell(d, c);
    DateDenotes(d);
    ClockDenotes(c);
    assert FirstThree(Pad(c.milli, 3)) == Pad(c.milli, 3);
  }

  /** A rendering reads back as the instant it renders. */
  lemma IsoTextDenotes(t: int)
    requires FourDigitYear(t)
    ensures Grammatical(IsoParts(t))
            && MomentOf(IsoParts(t)) == Moment(DateFromDay(t / MS_PER_DAY), ClockFromTime(t), 0)
    ensures Instant(MomentOf(IsoParts(t))) == t
  {
    FieldsDenote(DateFromDay(t / MS_PER_DAY), ClockFromTime(t));
    ClockCovers(t);
  }

  /** Text already in the canonical shape is its own conversion. */
  lemma CanonicalIsFixed(text: string)
    requires CanonicalShape(text)
    ensures Normalized(text) == text
  {
    var p := CanonicalIsShape(text);
    ShapeSpells(p);
    assert text == Spelling(p);
    MatchComplete(p);
    if Accepted(text) {
      CanonicalRenders(p);
    }
  }

  lemma CanonicalRenders(p: Parts)
    requires Grammatical(p) && |p.year| == 4 && p.second.Some? && p.fraction.Some?
    requires |p.fraction.value| == 3 && p.zone == "Z" && p.sep == 'T' && Convertible(MomentOf(p))
    ensures IsoText(Instant(MomentOf(p))) == Spelling(p)
  {
    var m := MomentOf(p);
    RendersFields(m);
    PartsOfMoment(p);
    FieldsSpell(m.date, m.clock);
  }

  /** The rendering of fields already in UTC is those fields. */
  lemma RendersFields(m: Moment)
    requires Convertible(m) && m.offset == 0 && 0 <= m.date.year
    ensures IsoText(Instant(m)) == FieldsText(m.date, m.clock)
  {
    FieldsReadBack(m);
  }

  lemma PartsOfMoment(p: Parts)
    requires Grammatical(p) && |p.year| == 4 && p.second.Some? && p.fraction.Some?
    requires |p.fraction.value| == 3 && p.zone == "Z" && p.sep == 'T' && Real(MomentOf(p))
    ensures FieldsParts(MomentOf(p).date, MomentOf(p).clock) == p
  {
    DatePartsOfMoment(p);
    ClockPartsOfMoment(p);
  }

  lemma ClockPartsOfMoment(p: Parts)
    requires Grammatical(p) && p.second.Some? && p.fraction.Some? && |p.fraction.value| == 3 && Real(MomentOf(p))
    ensures var c := MomentOf(p).clock;
            Pad(c.hour, 2) == p.hour && Pad(c.minute, 2) == p.minute && Pad(c.second, 2) == p.second.value
              && Pad(c.milli, 3) == p.fraction.value
  {
    PairReads(p.hour);
    PairReads(p.minute);
    PairReads(p.second.value);
    MillisecondsRead(p.fraction.value);
  }

  lemma DatePartsOfMoment(p: Parts)
    requires Grammatical(p) && |p.year| == 4 && Real(MomentOf(p))
    ensures var d := MomentOf(p).date; Pad(d.year, 4) == p.year && Pad(d.month, 2) == p.month && Pad(d.day, 2) == p.day
  {
    PadOfValue(p.year);
    PairReads(p.month);
    PairReads(p.day);
  }

  lemma PairReads(s: string)
    requires AllDigits(s) && |s| == 2
    ensures Pad(Value(s), 2) == s
  {
    PadOfValue(s);
  }

  lemma MillisecondsRead(f: string)
    requires AllDigits(f) && |f| == 3
    ensures Pad(FractionToMilliseconds(Some(f)), 3) == f
  {
    assert FirstThree(f) == f;
    PadOfValue(f);
  }
}
