/**
 * `formatStartAndEndTime` (src/helpers/formatStartAndEndTime.ts): the start of a
 * booked slot is the selected `HH:mm:ss` string, the end is that time plus 59
 * minutes on the wall clock, written back as zero-padded `HH:mm:ss`.
 */
module StartEndTime {
  import opened Wrappers
  import opened Text
  import opened Clock

  datatype StartAndEnd = StartAndEnd(startTime: string, endTime: string)

  /** 59 minutes, the length the helper gives every slot. */
  const SlotSeconds: nat := 59 * 60

  /** The largest distance from the epoch, in milliseconds, that a `Date` holds (`TimeClip`). */
  const MaxTimeValue: int := 8_640_000_000_000_000

  const MsPerDay: int := 86_400_000

  predicate InTimeRange(v: int) {
    -MaxTimeValue <= v <= MaxTimeValue
  }

  /**
   * The clock `new Date()` reads, as the time value in milliseconds of the
   * start of the current local day: the day before it and the two after it lie
   * inside the range of `Date`.
   */
  predicate CurrentDay(midnight: int) {
    -MaxTimeValue <= midnight - MsPerDay && midnight + 2 * MsPerDay <= MaxTimeValue
  }

  /**
   * `Number(field)` for fields made of decimal digits with an optional sign:
   * the empty string counts as 0, a lone sign and every other string is NaN.
   */
  function NumberOf(field: string): Option<int> {
    if AllDigits(field) then Some(DecimalValue(field))
    else if |field| >= 2 && (field[0] == '-' || field[0] == '+') && AllDigits(field[1..]) then
      var magnitude: int := DecimalValue(field[1..]);
      Some(if field[0] == '-' then -magnitude else magnitude)
    else None
  }

  /**
   * The seconds of day that `setHours(h, m, s, 0)` on the current day followed
   * by `+ 59 * 60 * 1000` ms reaches; `None` when one of the three fields is NaN
   * or either date falls outside the range of `Date` (an Invalid Date).
   */
  function EndSecondOfDay(selectedTime: string, midnight: int): Option<TimeOfDay> {
    var parts := Split(selectedTime, ':');
    if |parts| < 3 then None
    else
      match (NumberOf(parts[0]), NumberOf(parts[1]), NumberOf(parts[2]))
      case (Some(h), Some(m), Some(s)) =>
        var start := midnight + (h * 3600 + m * 60 + s) * 1000;
        if InTimeRange(start) && InTimeRange(start + SlotSeconds * 1000) then
          Some((h * 3600 + m * 60 + s + SlotSeconds) % SecondsPerDay)
        else None
      case _ => None
  }

  function FormatStartAndEndTime(selectedTime: string, midnight: int): (r: StartAndEnd)
    ensures r.startTime == selectedTime
    ensures EndSecondOfDay(selectedTime, midnight).Some? ==> |r.endTime| == 8 && r.endTime[2] == ':' && r.endTime[5] == ':'
    ensures EndSecondOfDay(selectedTime, midnight).None? ==> r.endTime == "NaN:NaN:NaN"
  {
    var endTime :=
      match EndSecondOfDay(selectedTime, midnight)
      case Some(t) => FormatHms(t)
      case None => "NaN:NaN:NaN";
    StartAndEnd(selectedTime, endTime)
  }

  /** The three fields of a formatted time are numbers that add back up to it, and the day holds both dates. */
  lemma {:induction false} EndOfFormatted(t: TimeOfDay, midnight: int)
    requires CurrentDay(midnight)
    ensures EndSecondOfDay(FormatHms(t), midnight) == Some((t + SlotSeconds) % SecondsPerDay)
  {
    var h, m, s := Pad2(HourOf(t)), Pad2(MinuteOf(t)), Pad2(SecondOf(t));
    DigitsHaveNoColon(h);
    DigitsHaveNoColon(m);
    DigitsHaveNoColon(s);
    SplitThree(h, m, s);
    Decompose(t);
    assert InTimeRange(midnight + t * 1000) && InTimeRange(midnight + t * 1000 + SlotSeconds * 1000);
  }

  /**
   * For a well-formed `HH:mm:ss` input the end time is the start plus 3540
   * seconds modulo a day; read back, it gives exactly that time.
   */
  lemma {:induction false} EndTimeOfWellFormed(t: TimeOfDay, midnight: int)
    requires CurrentDay(midnight)
    ensures EndSecondOfDay(FormatHms(t), midnight) == Some((t + SlotSeconds) % SecondsPerDay)
    ensures ParseHms(FormatStartAndEndTime(FormatHms(t), midnight).endTime) == Some((t + SlotSeconds) % SecondsPerDay)
  {
    EndOfFormatted(t, midnight);
    ParseFormatHms((t + SlotSeconds) % SecondsPerDay);
  }

  lemma DivMod60(q: int, r: nat)
    requires r < 60
    ensures (q * 60 + r) / 60 == q && (q * 60 + r) % 60 == r
  {
  }

  /** Adding whole minutes, wrapping at most once a day, leaves the seconds of the minute alone. */
  lemma {:induction false} SlotKeepsSecond(t: TimeOfDay)
    ensures SecondOf((t + SlotSeconds) % SecondsPerDay) == SecondOf(t)
  {
    var q := t / 60;
    assert t == q * 60 + SecondOf(t);
    if t + SlotSeconds < SecondsPerDay {
      assert (t + SlotSeconds) % SecondsPerDay == (q + 59) * 60 + SecondOf(t);
      DivMod60(q + 59, SecondOf(t));
    } else {
      assert (t + SlotSeconds) % SecondsPerDay == (q + 59 - 1440) * 60 + SecondOf(t);
      DivMod60(q + 59 - 1440, SecondOf(t));
    }
  }

  /** Only whole minutes are added, so the seconds field is carried over unchanged. */
  lemma EndKeepsSeconds(t: TimeOfDay, midnight: int)
    requires CurrentDay(midnight)
    ensures FormatStartAndEndTime(FormatHms(t), midnight).endTime[6..] == FormatHms(t)[6..]
  {
    var e: TimeOfDay := (t + SlotSeconds) % SecondsPerDay;
    EndOfFormatted(t, midnight);
    SlotKeepsSecond(t);
    SecondsField(e);
    SecondsField(t);
  }

  /** The end of a slot that starts before 23:01 is on the same day. */
  lemma SameDayEnd(t: TimeOfDay, midnight: int)
    requires CurrentDay(midnight) && t + SlotSeconds < SecondsPerDay
    ensures FormatStartAndEndTime(FormatHms(t), midnight).endTime == FormatHms(t + SlotSeconds)
  {
    var x := t + SlotSeconds;
    assert x % SecondsPerDay == x;
    EndTimeOfWellFormed(t, midnight);
  }

  lemma FormatFiftyNinePast(h: nat)
    requires h < 24
    ensures FormatHms(h * 3600 + SlotSeconds) == Pad2(h) + ":59:00"
  {
    var e: TimeOfDay := h * 3600 + SlotSeconds;
    assert HourOf(e) == h && MinuteOf(e) == 59 && SecondOf(e) == 0;
    assert Pad2(59) == "59" && Pad2(0) == "00";
    assert FormatHms(e) == Pad2(h) + ":" + "59" + ":" + "00";
  }

  /** A slot that starts on the hour `HH:00:00` ends at `HH:59:00` of the same hour. */
  lemma OnTheHour(h: nat, midnight: int)
    requires h < 24 && CurrentDay(midnight)
    ensures FormatStartAndEndTime(FormatHms(h * 3600), midnight).endTime == Pad2(h) + ":59:00"
  {
    var t: TimeOfDay := h * 3600;
    SameDayEnd(t, midnight);
    var e := FormatStartAndEndTime(FormatHms(t), midnight).endTime;
    assert e == FormatHms(t + SlotSeconds);
    FormatFiftyNinePast(h);
  }

  lemma EndTimeFormatted(t: TimeOfDay, midnight: int)
    requires CurrentDay(midnight)
    ensures FormatStartAndEndTime(FormatHms(t), midnight).endTime == FormatHms((t + SlotSeconds) % SecondsPerDay)
  {
    EndTimeOfWellFormed(t, midnight);
  }

  lemma ElevenThirty()
    ensures FormatHms(84600) == "23:30:00"
  {
    assert HourOf(84600) == 23 && MinuteOf(84600) == 30 && SecondOf(84600) == 0;
    assert Pad2(23) == "23" && Pad2(30) == "30" && Pad2(0) == "00";
  }

  lemma TwentyNinePastMidnight()
    ensures FormatHms(1740) == "00:29:00"
  {
    assert HourOf(1740) == 0 && MinuteOf(1740) == 29 && SecondOf(1740) == 0;
    assert Pad2(0) == "00" && Pad2(29) == "29";
  }

  /** The end wraps past midnight: 23:30:00 ends at 00:29:00. */
  lemma WrapsPastMidnight(midnight: int)
    requires CurrentDay(midnight)
    ensures FormatStartAndEndTime("23:30:00", midnight).endTime == "00:29:00"
  {
    assert (84600 + SlotSeconds) % SecondsPerDay == 1740;
    EndTimeFormatted(84600, midnight);
    ElevenThirty();
    TwentyNinePastMidnight();
  }

  lemma EightHIsNaN()
    ensures NumberOf("8h") == None
  {
    assert !IsDigit("8h"[1]) && "8h"[0] == '8';
  }

  /** A field that is not a number makes the end time `NaN:NaN:NaN`. */
  lemma NotANumberField(midnight: int)
    ensures FormatStartAndEndTime("8h:00:00", midnight).endTime == "NaN:NaN:NaN"
  {
    assert "8h:00:00" == "8h" + [':'] + "00:00";
    SplitAfterPiece("8h", ':', "00:00");
    EightHIsNaN();
  }

  /** A missing seconds field is `undefined`, which is NaN as well. */
  lemma MissingField(midnight: int)
    ensures FormatStartAndEndTime("08:00", midnight).endTime == "NaN:NaN:NaN"
  {
    assert "08:00" == "08" + [':'] + "00";
    SplitAfterPiece("08", ':', "00");
    SplitNoSeparator("00", ':');
  }

  /** Empty fields are `Number('') == 0`: "::" is midnight, ending at 00:59:00. */
  lemma EmptyFieldsAreZero(midnight: int)
    requires CurrentDay(midnight)
    ensures FormatStartAndEndTime("::", midnight).endTime == "00:59:00"
  {
    assert "::" == "" + [':'] + ("" + [':'] + "");
    SplitAfterPiece("", ':', "" + [':'] + "");
    SplitAfterPiece("", ':', "");
    SplitNoSeparator("", ':');
    assert EndSecondOfDay("::", midnight) == Some(SlotSeconds);
    assert FormatHms(SlotSeconds) == "00:59:00";
  }

  /** The fields of `h:00:00` for a field `h` without a colon. */
  lemma {:induction false} HourFields(hour: string)
    requires ':' !in hour
    ensures Split(hour + ":00:00", ':') == [hour, "00", "00"]
  {
    SplitThree(hour, "00", "00");
    assert hour + ":" + "00" + ":" + "00" == hour + ":00:00";
  }

  lemma ZeroField()
    ensures NumberOf("00") == Some(0)
  {
    assert "00"[..1] == "0" && "0"[..0] == "";
  }

  /** `Number("-" + String(h))` is -h. */
  lemma {:induction false} NegatedNumber(h: nat)
    ensures ':' !in "-" + NatToString(h)
    ensures NumberOf("-" + NatToString(h)) == Some(0 - h as int)
  {
    var f := "-" + NatToString(h);
    DigitsHaveNoColon(NatToString(h));
    assert !IsDigit(f[0]);
    assert f[1..] == NatToString(h);
  }

  /** Going back `h` hours from midnight, then ahead 59 minutes, lands in hour 24 - h of the day before. */
  lemma {:induction false} NegativeHourOfDay(h: nat)
    requires 1 <= h <= 24
    ensures ((0 - h as int) * 3600 + 0 * 60 + 0 + SlotSeconds) % SecondsPerDay == (24 - h) * 3600 + SlotSeconds
  {
    var a := (24 - h) * 3600 + SlotSeconds;
    assert (0 - h as int) * 3600 + 0 * 60 + 0 + SlotSeconds == a - SecondsPerDay;
    assert 0 <= a < SecondsPerDay;
  }

  /** `-h:00:00`, for h from 1 to 24, ends in hour 24 - h, 59 minutes past. */
  lemma {:induction false} NegativeHourEnd(h: nat, midnight: int)
    requires 1 <= h <= 24 && CurrentDay(midnight)
    ensures EndSecondOfDay("-" + NatToString(h) + ":00:00", midnight) == Some((24 - h) * 3600 + SlotSeconds)
  {
    NegatedNumber(h);
    HourFields("-" + NatToString(h));
    ZeroField();
    NegativeHourOfDay(h);
    assert 0 <= h * 3600 * 1000 <= MsPerDay;
    assert (0 - h as int) * 3600 * 1000 == 0 - h * 3600 * 1000;
  }

  /**
   * A negative hour goes back into the day before: `-h:00:00`, for h from 1 to
   * 24, is the hour 24 - h of yesterday and ends 59 minutes later.
   */
  lemma {:induction false} NegativeHourRollsBack(h: nat, midnight: int)
    requires 1 <= h <= 24 && CurrentDay(midnight)
    ensures FormatStartAndEndTime("-" + NatToString(h) + ":00:00", midnight).endTime == Pad2(24 - h) + ":59:00"
  {
    NegativeHourEnd(h, midnight);
    FormatFiftyNinePast(24 - h);
  }

  lemma MinusOneText()
    ensures "-" + NatToString(1) + ":00:00" == "-1:00:00"
    ensures Pad2(23) + ":59:00" == "23:59:00"
  {
    assert NatToString(1) == "1";
    assert Pad2(23) == "23";
  }

  /** `-1:00:00` ends at 23:59:00. */
  lemma MinusOneHour(midnight: int)
    requires CurrentDay(midnight)
    ensures FormatStartAndEndTime("-1:00:00", midnight).endTime == "23:59:00"
  {
    NegativeHourRollsBack(1, midnight);
    MinusOneText();
  }

  /**
   * An hour whose time lies past the range of `Date` gives an Invalid Date on
   * any day the clock can show, so the end is `NaN:NaN:NaN`.
   */
  lemma {:induction false} HourBeyondDateRange(h: nat, midnight: int)
    requires CurrentDay(midnight) && h * 3_600_000 > 2 * MaxTimeValue
    ensures FormatStartAndEndTime(NatToString(h) + ":00:00", midnight).endTime == "NaN:NaN:NaN"
  {
    DigitsHaveNoColon(NatToString(h));
    HourFields(NatToString(h));
    ZeroField();
    assert !InTimeRange(midnight + (h * 3600 + 0 * 60 + 0) * 1000);
  }
}
