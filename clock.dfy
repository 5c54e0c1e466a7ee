/**
 * Times of day as seconds since midnight, with the three textual forms the
 * front end uses: the 24-hour `HH:mm:ss` of the API and of `formatStartAndEndTime`,
 * the 12-hour `hh:mm a` of date-fns used for display, and the unpadded
 * `h:mm a` labels of the time picker.
 */
module Clock {
  import opened Wrappers
  import opened Text

  const SecondsPerDay: nat := 86400

  type TimeOfDay = t: nat | t < SecondsPerDay

  function HourOf(t: TimeOfDay): (h: nat)
    ensures h < 24
  {
    t / 3600
  }

  function MinuteOf(t: TimeOfDay): (m: nat)
    ensures m < 60
  {
    t % 3600 / 60
  }

  function SecondOf(t: TimeOfDay): (s: nat)
    ensures s < 60
  {
    t % 60
  }

  lemma Decompose(t: TimeOfDay)
    ensures t == HourOf(t) * 3600 + MinuteOf(t) * 60 + SecondOf(t)
  {
  }

  /** date-fns `format(d, 'HH:mm:ss')`, and equally the padded `join(':')` of formatStartAndEndTime. */
  function FormatHms(t: TimeOfDay): (s: string)
    ensures |s| == 8 && s[2] == ':' && s[5] == ':'
    ensures AllDigits(s[..2]) && AllDigits(s[3..5]) && AllDigits(s[6..])
  {
    var s := Pad2(HourOf(t)) + ":" + Pad2(MinuteOf(t)) + ":" + Pad2(SecondOf(t));
    assert s[..2] == Pad2(HourOf(t)) && s[3..5] == Pad2(MinuteOf(t)) && s[6..] == Pad2(SecondOf(t));
    s
  }

  /** A field of date-fns's `HH`, `mm` or `ss` token: one or two digits. */
  predicate IsTwoDigitField(f: string) {
    1 <= |f| <= 2 && AllDigits(f)
  }

  /**
   * date-fns `parse(s, 'HH:mm:ss', base)`: three colon-separated fields of one or
   * two digits, hour below 24, minute and second below 60. `None` is the Invalid
   * Date that date-fns returns otherwise.
   */
  function ParseHms(s: string): Option<TimeOfDay> {
    var parts := Split(s, ':');
    if |parts| == 3 && IsTwoDigitField(parts[0]) && IsTwoDigitField(parts[1]) && IsTwoDigitField(parts[2]) then
      var h, m, sec := DecimalValue(parts[0]), DecimalValue(parts[1]), DecimalValue(parts[2]);
      if h < 24 && m < 60 && sec < 60 then Some(h * 3600 + m * 60 + sec) else None
    else None
  }

  /** Formatting and then parsing a time of day gives it back. */
  /** The last two characters of `HH:mm:ss` are the padded seconds. */
  lemma SecondsField(t: TimeOfDay)
    ensures FormatHms(t)[6..] == Pad2(SecondOf(t))
  {
    var s := Pad2(HourOf(t)) + ":" + Pad2(MinuteOf(t)) + ":" + Pad2(SecondOf(t));
    assert s[6..] == Pad2(SecondOf(t));
  }

  lemma {:induction false} ParseFormatHms(t: TimeOfDay)
    ensures ParseHms(FormatHms(t)) == Some(t)
  {
    var h, m, s := Pad2(HourOf(t)), Pad2(MinuteOf(t)), Pad2(SecondOf(t));
    DigitsHaveNoColon(h);
    DigitsHaveNoColon(m);
    DigitsHaveNoColon(s);
    SplitThree(h, m, s);
  }

  /** Three two-digit fields joined by colons parse to the time they spell, when in range. */
  lemma {:induction false} ParseFields(a: string, b: string, c: string)
    requires |a| == 2 && |b| == 2 && |c| == 2 && AllDigits(a) && AllDigits(b) && AllDigits(c)
    requires DecimalValue(a) < 24 && DecimalValue(b) < 60 && DecimalValue(c) < 60
    ensures ParseHms(a + ":" + b + ":" + c) == Some(DecimalValue(a) * 3600 + DecimalValue(b) * 60 + DecimalValue(c))
  {
    DigitsHaveNoColon(a);
    DigitsHaveNoColon(b);
    DigitsHaveNoColon(c);
    SplitThree(a, b, c);
  }

  lemma FormatHmsInjective(t: TimeOfDay, u: TimeOfDay)
    ensures FormatHms(t) == FormatHms(u) <==> t == u
  {
    if FormatHms(t) == FormatHms(u) {
      ParseFormatHms(t);
      ParseFormatHms(u);
    }
  }

  /** The hour on a 12-hour clock: 0 and 12 show as 12, 13..23 as 1..11. */
  function Hour12(h: nat): (r: nat)
    requires h < 24
    ensures 1 <= r <= 12
  {
    if h % 12 == 0 then 12 else h % 12
  }

  function Meridiem(h: nat): string
    requires h < 24
  {
    if h < 12 then "AM" else "PM"
  }

  /** date-fns `format(d, 'hh:mm a')`: padded 12-hour hour, padded minute, AM or PM. */
  function Format12(t: TimeOfDay): (s: string)
    ensures |s| == 8 && s[2] == ':' && s[5] == ' '
  {
    Pad2(Hour12(HourOf(t))) + ":" + Pad2(MinuteOf(t)) + " " + Meridiem(HourOf(t))
  }

  /** date-fns `format(d, 'h:mm a')`: like Format12 but the hour is not padded. */
  function FormatShort12(t: TimeOfDay): (s: string)
    ensures ' ' in s
  {
    var s := NatToString(Hour12(HourOf(t))) + ":" + Pad2(MinuteOf(t)) + " " + Meridiem(HourOf(t));
    assert s[|s| - 3] == ' ';
    s
  }

  /**
   * Reads a `hh:mm AM`/`hh:mm PM` label back into a time of day (seconds are
   * not shown, so the result is a whole minute); the independent reading of Format12.
   */
  function Read12(s: string): Option<TimeOfDay> {
    if |s| == 8 && s[2] == ':' && s[5] == ' ' && AllDigits(s[..2]) && AllDigits(s[3..5])
       && (s[6..] == "AM" || s[6..] == "PM")
    then
      var h12, m := DecimalValue(s[..2]), DecimalValue(s[3..5]);
      if 1 <= h12 <= 12 && m < 60 then
        var h := h12 % 12 + (if s[6..] == "PM" then 12 else 0);
        Some(h * 3600 + m * 60)
      else None
    else None
  }

  /** The 12-hour label keeps the hour and the minute and drops the seconds. */
  lemma {:induction false} Read12Format12(t: TimeOfDay)
    ensures Read12(Format12(t)) == Some(t - SecondOf(t))
  {
    var h := HourOf(t);
    var s := Format12(t);
    assert s[..2] == Pad2(Hour12(h));
    assert s[3..5] == Pad2(MinuteOf(t));
    assert s[6..] == Meridiem(h);
    var h12 := Hour12(h);
    assert h12 % 12 + (if h < 12 then 0 else 12) == h;
    Decompose(t);
  }

  /** Morning hours read AM and the rest PM; midnight and noon both show 12. */
  lemma Format12Hours(t: TimeOfDay)
    ensures Format12(t)[6..] == (if HourOf(t) < 12 then "AM" else "PM")
    ensures HourOf(t) == 0 || HourOf(t) == 12 ==> Format12(t)[..2] == "12"
    ensures 13 <= HourOf(t) ==> DecimalValue(Format12(t)[..2]) == HourOf(t) - 12
    ensures Format12(t)[3..5] == FormatHms(t)[3..5]
  {
    var s := Format12(t);
    assert s[..2] == Pad2(Hour12(HourOf(t)));
    assert s[6..] == Meridiem(HourOf(t));
  }

  /** The unpadded label is the padded one without its leading zero, if it has one. */
  lemma {:induction false} FormatShort12Unpadded(t: TimeOfDay)
    ensures Hour12(HourOf(t)) < 10 ==> "0" + FormatShort12(t) == Format12(t)
    ensures Hour12(HourOf(t)) >= 10 ==> FormatShort12(t) == Format12(t)
    ensures FormatShort12(t)[0] != '0'
  {
    var n := Hour12(HourOf(t));
    if n < 10 {
      assert NatToString(n) == [DigitChar(n)];
      assert "0" + NatToString(n) == Pad2(n);
    } else {
      assert NatToString(n) == NatToString(n / 10) + [DigitChar(n % 10)];
      assert NatToString(n / 10) == [DigitChar(1)];
      assert NatToString(n) == Pad2(n);
    }
  }
}
