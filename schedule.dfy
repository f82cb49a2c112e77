/**
 * The next-battle input language of `set_next_battle`: an absolute
 * `dd/mm/yyyy HH:MM`, or a bare `HH:MM` meaning its next occurrence.
 */
module Schedule {
  import opened Wrappers
  import opened Calendar
  import opened Text

  /**
   * One numeric field: a maximal run of `lo`..`hi` ASCII digits, followed by the
   * separator `sep` (or by the end of the input when `sep` is None). Gives the
   * value and the input left after the separator.
   */
  function Field(s: string, lo: nat, hi: nat, sep: Option<char>): (r: Option<(nat, string)>)
    requires lo >= 1
    ensures r.Some? ==> |r.value.1| < |s|
  {
    var n := DigitRun(s);
    if n < lo || n > hi then None
    else match sep
      case None => if n == |s| then Some((DigitsValue(s[..n]), "")) else None
      case Some(c) => if n < |s| && s[n] == c then Some((DigitsValue(s[..n]), s[n + 1..])) else None
  }

  /** `datetime.strptime(s, '%d/%m/%Y %H:%M')`: day, month, hour and minute take one or two digits, the year four. */
  function ParseAbsolute(s: string): (r: Option<DateTime>)
    ensures r.Some? ==> Valid(r.value)
  {
    match Field(s, 1, 2, Some('/'))
    case None => None
    case Some((day, s1)) =>
      match Field(s1, 1, 2, Some('/'))
      case None => None
      case Some((month, s2)) =>
        match Field(s2, 4, 4, Some(' '))
        case None => None
        case Some((year, s3)) =>
          match Field(s3, 1, 2, Some(':'))
          case None => None
          case Some((hour, s4)) =>
            match Field(s4, 1, 2, None)
            case None => None
            case Some((minute, _)) =>
              var d := DateTime(year, month, day, hour, minute);
              if Valid(d) then Some(d) else None
  }

  /** `datetime.strptime(s, '%H:%M')`, keeping only the hour and minute. */
  function ParseClock(s: string): (r: Option<(int, int)>)
    ensures r.Some? ==> 0 <= r.value.0 < 24 && 0 <= r.value.1 < 60
  {
    match Field(s, 1, 2, Some(':'))
    case None => None
    case Some((hour, s1)) =>
      match Field(s1, 1, 2, None)
      case None => None
      case Some((minute, _)) =>
        if hour < 24 && minute < 60 then Some((hour as int, minute as int)) else None
  }

  /** The canonical absolute form, every field zero-padded. */
  function FormatAbsolute(d: DateTime): string
    requires Valid(d)
  {
    Pad(d.day, 2) + "/" + Pad(d.month, 2) + "/" + Pad(d.year, 4) + " " + Pad(d.hour, 2) + ":" + Pad(d.minute, 2)
  }

  function FormatClock(h: nat, m: nat): string
    requires h < 24 && m < 60
  {
    Pad(h, 2) + ":" + Pad(m, 2)
  }

  lemma FieldOfPad(n: nat, width: nat, lo: nat, hi: nat, c: char, rest: string)
    requires 1 <= lo <= width <= hi && n < Pow10(width) && !IsDigit(c)
    ensures Field(Pad(n, width) + [c] + rest, lo, hi, Some(c)) == Some((n, rest))
  {
    var s := Pad(n, width) + [c] + rest;
    assert s == Pad(n, width) + ([c] + rest);
    DigitRunOfDigitsThen(Pad(n, width), [c] + rest);
    assert s[..width] == Pad(n, width);
    assert s[width + 1..] == rest;
    PadValue(n, width);
  }

  lemma FieldOfPadAtEnd(n: nat, width: nat, lo: nat, hi: nat)
    requires 1 <= lo <= width <= hi && n < Pow10(width)
    ensures Field(Pad(n, width), lo, hi, None) == Some((n, ""))
  {
    DigitRunOfDigitsThen(Pad(n, width), "");
    assert Pad(n, width) + "" == Pad(n, width);
    assert Pad(n, width)[..width] == Pad(n, width);
    PadValue(n, width);
  }

  /** Every valid date, written in the absolute form, reads back as exactly that date. */
  lemma ParseFormatAbsolute(d: DateTime)
    requires Valid(d)
    ensures ParseAbsolute(FormatAbsolute(d)) == Some(d)
  {
    var t4 := Pad(d.minute, 2);
    var t3 := Pad(d.hour, 2) + ":" + t4;
    var t2 := Pad(d.year, 4) + " " + t3;
    var t1 := Pad(d.month, 2) + "/" + t2;
    var t0 := Pad(d.day, 2) + "/" + t1;
    assert FormatAbsolute(d) == t0;
    FieldOfPad(d.day, 2, 1, 2, '/', t1);
    FieldOfPad(d.month, 2, 1, 2, '/', t2);
    FieldOfPad(d.year, 4, 4, 4, ' ', t3);
    FieldOfPad(d.hour, 2, 1, 2, ':', t4);
    FieldOfPadAtEnd(d.minute, 2, 1, 2);
  }

  /** Every valid time of day, written as `HH:MM`, reads back as exactly that time. */
  lemma ParseFormatClock(h: nat, m: nat)
    requires h < 24 && m < 60
    ensures ParseClock(FormatClock(h, m)) == Some((h as int, m as int))
  {
    FieldOfPad(h, 2, 1, 2, ':', Pad(m, 2));
    FieldOfPadAtEnd(m, 2, 1, 2);
  }

  /** A bare `HH:MM` never reads as an absolute date, so it always reaches the second parse. */
  lemma ClockIsNotAbsolute(h: nat, m: nat)
    requires h < 24 && m < 60
    ensures ParseAbsolute(FormatClock(h, m)) == None
  {
    var s := FormatClock(h, m);
    assert s == Pad(h, 2) + ([':'] + Pad(m, 2));
    DigitRunOfDigitsThen(Pad(h, 2), [':'] + Pad(m, 2));
    assert s[2] == ':';
  }

  /** The clock in use when a bare hour is given: a valid instant before the last day `datetime` can step past. */
  predicate ValidClock(now: DateTime) {
    Valid(now) && now.year < MaxYear
  }

  /**
   * The rollover rule: today at `h:m`, unless that time is already past
   * (an earlier hour, or the same hour and an earlier minute), then tomorrow.
   */
  function Rollover(now: DateTime, h: int, m: int): (r: DateTime)
    requires ValidClock(now) && 0 <= h < 24 && 0 <= m < 60
    ensures Valid(r) && r.hour == h && r.minute == m
    ensures SameDay(r, now) || SameDay(r, NextDay(now))
  {
    if h < now.hour || (h == now.hour && m < now.minute) then WithTime(NextDay(now), h, m)
    else WithTime(now, h, m)
  }

  /** The rolled-over time never lies in the past. */
  lemma RolloverNotPast(now: DateTime, h: int, m: int)
    requires ValidClock(now) && 0 <= h < 24 && 0 <= m < 60
    ensures AtOrAfter(Rollover(now, h, m), now)
  {
  }

  /** The rolled-over time is the earliest instant at or after `now` whose clock reads `h:m`. */
  lemma RolloverIsEarliest(now: DateTime, h: int, m: int, t: DateTime)
    requires ValidClock(now) && 0 <= h < 24 && 0 <= m < 60
    requires Valid(t) && t.hour == h && t.minute == m && AtOrAfter(t, now)
    ensures !Before(t, Rollover(now, h, m))
  {
    var r := Rollover(now, h, m);
    if h < now.hour || (h == now.hour && m < now.minute) {
      if DayBefore(now, t) {
        NextDayIsSuccessor(now, t);
      }
    }
  }

  /** What `set_next_battle` stores for `input` at clock `now`, or None when it reports failure. */
  function NextBattleFor(input: string, now: DateTime): (r: Option<DateTime>)
    requires ValidClock(now)
    ensures r.Some? ==> Valid(r.value)
    ensures ParseAbsolute(input).Some? ==> r == ParseAbsolute(input)
    ensures ParseAbsolute(input).None? && ParseClock(input).Some? ==>
              r == Some(Rollover(now, ParseClock(input).value.0, ParseClock(input).value.1))
    ensures r.None? <==> ParseAbsolute(input).None? && ParseClock(input).None?
  {
    match ParseAbsolute(input)
    case Some(d) => Some(d)
    case None =>
      match ParseClock(input)
      case Some((h, m)) => Some(Rollover(now, h, m))
      case None => None
  }

  /** `09:00` at 10:00 on a day stores the next day at 09:00; at 08:00 it stores the same day. */
  lemma BareHourExamples(now: DateTime)
    requires ValidClock(now) && now.minute == 0
    ensures now.hour == 10 ==> NextBattleFor("09:00", now) == Some(NextDay(now).(hour := 9, minute := 0))
    ensures now.hour == 8 ==> NextBattleFor("09:00", now) == Some(now.(hour := 9, minute := 0))
  {
    assert "09:00" == FormatClock(9, 0);
    ParseFormatClock(9, 0);
    ClockIsNotAbsolute(9, 0);
  }
}
