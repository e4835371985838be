/** The accepted timestamp grammar of shared/time.ts: a recogniser, and what it recognises. */
module TimestampText {
  import opened Wrappers
  import opened Digits

  /** The capture groups. An absent zone is the empty string. */
  datatype Parts = Parts(
    year: string, month: string, day: string, sep: char, hour: string, minute: string,
    second: Option<string>, fraction: Option<string>, zone: string)

  predicate TwoDigits(s: string) {
    |s| == 2 && IsDigit(s[0]) && IsDigit(s[1])
  }

  predicate ZoneHours(s: string)
  {
    TwoDigits(s) && (s[0] == '0' || s[0] == '1' || (s[0] == '2' && s[1] <= '3'))
  }

  predicate ZoneMinutes(s: string) {
    TwoDigits(s) && s[0] <= '5'
  }

  /** `Z`, `z`, `±HH`, `±HHMM`, `±HH:MM`, or nothing. */
  predicate Zone(z: string) {
    || z == ""
    || z == "Z"
    || z == "z"
    || (|z| >= 3 && (z[0] == '+' || z[0] == '-') && ZoneHours(z[1..3])
        && (|z| == 3 || (|z| == 5 && ZoneMinutes(z[3..])) || (|z| == 6 && z[3] == ':' && ZoneMinutes(z[4..]))))
  }

  /** The grammar: what each group may hold. */
  predicate Grammatical(p: Parts) {
    && |p.year| >= 4 && AllDigits(p.year)
    && TwoDigits(p.month) && TwoDigits(p.day) && TwoDigits(p.hour) && TwoDigits(p.minute)
    && (p.sep == 'T' || p.sep == ' ')
    && (p.second.Some? ==> TwoDigits(p.second.value))
    && (p.fraction.Some? ==> |p.fraction.value| >= 1 && AllDigits(p.fraction.value))
    && Zone(p.zone)
  }

  function SecondText(p: Parts): string {
    if p.second.Some? then ":" + p.second.value else ""
  }

  function FractionText(p: Parts): string {
    if p.fraction.Some? then "." + p.fraction.value else ""
  }

  /** Date and time of day to the minute, the part of fixed width. */
  function HeadText(p: Parts): string {
    "-" + p.month + "-" + p.day + [p.sep] + p.hour + ":" + p.minute
  }

  /** The text a set of groups spells. */
  function Spelling(p: Parts): string {
    p.year + (HeadText(p) + (SecondText(p) + (FractionText(p) + p.zone)))
  }

  /** Length of the longest run of digits `s` starts with. */
  function DigitRun(s: string): (n: nat)
    ensures n <= |s|
    ensures AllDigits(s[..n])
    ensures n < |s| ==> !IsDigit(s[n])
  {
    if s == [] || !IsDigit(s[0]) then 0 else 1 + DigitRun(s[1..])
  }

  predicate HeadMatches(s: string) {
    && |s| >= 12
    && s[0] == '-' && TwoDigits(s[1..3]) && s[3] == '-' && TwoDigits(s[4..6])
    && (s[6] == 'T' || s[6] == ' ')
    && TwoDigits(s[7..9]) && s[9] == ':' && TwoDigits(s[10..12])
  }

  /** An optional `:SS` at the front of `s`, and what follows it. */
  function TakeSecond(s: string): (Option<string>, string) {
    if |s| >= 3 && s[0] == ':' && TwoDigits(s[1..3]) then (Some(s[1..3]), s[3..]) else (None, s)
  }

  /** An optional `.` and digits at the front of `s`, and what follows them. */
  function TakeFraction(s: string): (Option<string>, string) {
    if |s| >= 2 && s[0] == '.' && IsDigit(s[1]) then
      var n := 1 + DigitRun(s[1..]);
      (Some(s[1..n]), s[n..])
    else (None, s)
  }

  /** The recogniser: the groups of `text`, or `None` when it does not match. */
  function Match(text: string): Option<Parts> {
    var n := DigitRun(text);
    var rest := text[n..];
    if n < 4 || !HeadMatches(rest) then None else
    var (second, afterSecond) := TakeSecond(rest[12..]);
    var (fraction, zone) := TakeFraction(afterSecond);
    if !Zone(zone) then None else
    Some(Parts(text[..n], rest[1..3], rest[4..6], rest[6], rest[7..9], rest[10..12], second, fraction, zone))
  }

  // ----- the recogniser recognises exactly the grammar -----

  lemma {:induction false} DigitRunStops(digits: string, rest: string)
    requires AllDigits(digits) && (rest == [] || !IsDigit(rest[0]))
    ensures DigitRun(digits + rest) == |digits|
  {
    if digits == [] {
      assert digits + rest == rest;
    } else {
      assert (digits + rest)[1..] == digits[1..] + rest;
      DigitRunStops(digits[1..], rest);
    }
  }

  lemma TakeSecondSpells(s: string)
    ensures var (second, rest) := TakeSecond(s);
            && (second.Some? ==> TwoDigits(second.value))
            && s == (if second.Some? then ":" + second.value else "") + rest
  {
    var (second, rest) := TakeSecond(s);
    if second.Some? {
      assert s == [s[0]] + s[1..3] + s[3..];
    }
  }

  lemma TakeFractionSpells(s: string)
    ensures var (fraction, rest) := TakeFraction(s);
            && (fraction.Some? ==> |fraction.value| >= 1 && AllDigits(fraction.value))
            && s == (if fraction.Some? then "." + fraction.value else "") + rest
  {
    var (fraction, rest) := TakeFraction(s);
    if fraction.Some? {
      var n := DigitRun(s[1..]);
      assert n >= 1;
      assert fraction.value == s[1..][..n];
      assert s == [s[0]] + s[1..n + 1] + s[n + 1..];
    }
  }

  lemma HeadSpells(s: string, p: Parts)
    requires HeadMatches(s)
    requires p.month == s[1..3] && p.day == s[4..6] && p.sep == s[6] && p.hour == s[7..9] && p.minute == s[10..12]
    ensures s[..12] == HeadText(p)
  {
    assert s[..12] == [s[0]] + s[1..3] + [s[3]] + s[4..6] + [s[6]] + s[7..9] + [s[9]] + s[10..12];
  }

  lemma MatchSound(text: string)
    ensures Match(text).Some? ==> Grammatical(Match(text).value) && text == Spelling(Match(text).value)
  {
    if Match(text).Some? {
      var p := Match(text).value;
      var n := DigitRun(text);
      var rest := text[n..];
      var (second, afterSecond) := TakeSecond(rest[12..]);
      HeadSpells(rest, p);
      TakeSecondSpells(rest[12..]);
      TakeFractionSpells(afterSecond);
      PiecesSpell(text, n, rest, afterSecond, p);
    }
  }

  lemma PiecesSpell(text: string, n: nat, rest: string, afterSecond: string, p: Parts)
    requires n + 12 <= |text| && p.year == text[..n] && rest == text[n..] && rest[..12] == HeadText(p)
    requires rest[12..] == SecondText(p) + afterSecond && afterSecond == FractionText(p) + p.zone
    ensures text == Spelling(p)
  {
    assert rest == rest[..12] + rest[12..];
    assert text == text[..n] + rest;
  }

  lemma TakeSecondTakes(p: Parts, rest: string)
    requires p.second.Some? ==> TwoDigits(p.second.value)
    requires p.second.None? ==> rest == [] || rest[0] != ':'
    ensures TakeSecond(SecondText(p) + rest) == (p.second, rest)
  {
    var s := SecondText(p) + rest;
    if p.second.Some? {
      assert s[1..3] == p.second.value && s[3..] == rest;
    } else {
      assert s == rest;
    }
  }

  lemma TakeFractionTakes(p: Parts, rest: string)
    requires p.fraction.Some? ==> |p.fraction.value| >= 1 && AllDigits(p.fraction.value)
    requires rest == [] || (rest[0] != '.' && !IsDigit(rest[0]))
    ensures TakeFraction(FractionText(p) + rest) == (p.fraction, rest)
  {
    var s := FractionText(p) + rest;
    if p.fraction.Some? {
      var n := |p.fraction.value|;
      assert s[1..] == p.fraction.value + rest;
      DigitRunStops(p.fraction.value, rest);
      assert s[1] == p.fraction.value[0];
      assert s[1..n + 1] == p.fraction.value && s[n + 1..] == rest;
    } else {
      assert s == rest;
    }
  }

  lemma HeadTakes(p: Parts, rest: string)
    requires Grammatical(p)
    ensures var s := HeadText(p) + rest;
            && HeadMatches(s) && s[12..] == rest
            && s[1..3] == p.month && s[4..6] == p.day && s[6] == p.sep && s[7..9] == p.hour && s[10..12] == p.minute
  {
    var s := HeadText(p) + rest;
    assert s[1..3] == p.month && s[4..6] == p.day && s[7..9] == p.hour && s[10..12] == p.minute;
    assert s[12..] == rest;
  }

  lemma MatchComplete(p: Parts)
    requires Grammatical(p)
    ensures Match(Spelling(p)) == Some(p)
  {
    var afterSecond := FractionText(p) + p.zone;
    var afterHead := SecondText(p) + afterSecond;
    var rest := HeadText(p) + afterHead;
    DigitRunStops(p.year, rest);
    assert (p.year + rest)[..|p.year|] == p.year && (p.year + rest)[|p.year|..] == rest;
    HeadTakes(p, afterHead);
    TakeSecondTakes(p, afterSecond);
    TakeFractionTakes(p, p.zone);
  }

  /** The recogniser accepts exactly the spellings of the grammar, and reads each one uniquely. */
  lemma MatchIffSpelling(text: string, p: Parts)
    ensures Match(text) == Some(p) <==> Grammatical(p) && text == Spelling(p)
  {
    MatchSound(text);
    if Grammatical(p) {
      MatchComplete(p);
    }
  }
}
