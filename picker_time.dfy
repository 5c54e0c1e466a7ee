/**
 * `PickerTime` (src/components/PickerTime.tsx): the hourly options of the
 * appointment time picker and the check that greys an option out.
 */
module PickerTime {
  import opened Wrappers
  import opened Text
  import opened Clock

  /** One `<SelectItem>`: its `value` (`HH:mm:ss`) and its shown `label` (`h:mm a`, held as `labelText`). */
  datatype TimeOption = TimeOption(value: string, labelText: string)

  const FirstHour: nat := 8
  const EndHour: nat := 17

  /**
   * The option the loop pushes for `hour`: the date set to `hour:00:00.000`,
   * formatted as `HH:mm:ss` and as `h:mm a`. Minutes and seconds are zero, so
   * the formatted forms are written out for a whole hour (OptionIsFormatted).
   */
  function OptionFor(hour: nat): TimeOption
    requires hour < 24
  {
    TimeOption(Pad2(hour) + ":00:00", NatToString(Hour12(hour)) + ":00 " + Meridiem(hour))
  }

  lemma OnTheHourFields(hour: nat)
    requires hour < 24
    ensures HourOf(hour * 3600) == hour && MinuteOf(hour * 3600) == 0 && SecondOf(hour * 3600) == 0
  {
  }

  lemma Pad2Zero()
    ensures Pad2(0) == "00"
  {
  }

  /** The option is date-fns's formatting of the time `hour:00:00`. */
  lemma OptionIsFormatted(hour: nat)
    requires hour < 24
    ensures OptionFor(hour).value == FormatHms(hour * 3600)
    ensures OptionFor(hour).labelText == FormatShort12(hour * 3600)
  {
    OnTheHourFields(hour);
    Pad2Zero();
  }

  /** An option's value reads back as its hour on the hour, and its label is not zero-padded. */
  lemma OptionReadsBack(hour: nat)
    requires hour < 24
    ensures ParseHms(OptionFor(hour).value) == Some(hour * 3600)
    ensures |OptionFor(hour).labelText| >= 1 && OptionFor(hour).labelText[0] != '0'
  {
    OptionIsFormatted(hour);
    ParseFormatHms(hour * 3600);
    FormatShort12Unpadded(hour * 3600);
  }

  /** The nine options for hours 8 through 16, in loop order. */
  function HourlyOptions(): (r: seq<TimeOption>)
    ensures |r| == EndHour - FirstHour
    ensures forall i :: 0 <= i < |r| ==> r[i] == OptionFor(FirstHour + i)
  {
    seq(EndHour - FirstHour, i requires 0 <= i < EndHour - FirstHour => OptionFor(FirstHour + i))
  }

  /** The value at position `i` is the hour `8 + i`, and no label is zero-padded. */
  lemma HourlyValues(i: nat)
    requires i < EndHour - FirstHour
    ensures ParseHms(HourlyOptions()[i].value) == Some((FirstHour + i) * 3600)
    ensures |HourlyOptions()[i].labelText| >= 1 && HourlyOptions()[i].labelText[0] != '0'
  {
    OptionReadsBack(FirstHour + i);
  }

  /** The `for (hour = 8; hour < 17; hour++)` loop pushing into `timeOptions`. */
  method TimeOptions() returns (timeOptions: seq<TimeOption>)
    ensures timeOptions == HourlyOptions()
  {
    timeOptions := [];
    var hour := FirstHour;
    while hour < EndHour
      invariant FirstHour <= hour <= EndHour
      invariant |timeOptions| == hour - FirstHour
      invariant forall i :: 0 <= i < |timeOptions| ==> timeOptions[i] == OptionFor(FirstHour + i)
    {
      timeOptions := timeOptions + [OptionFor(hour)];
      hour := hour + 1;
    }
  }

  /** `isTimeDisabled`, applied to an option's value: membership in `disabledTimes`. */
  predicate IsTimeDisabled(disabledTimes: seq<string>, entry: string) {
    entry in disabledTimes
  }

  /** Values increase strictly with the position, so they are unique React keys. */
  lemma {:induction false} ValuesIncreasing(i: nat, j: nat)
    requires i < j < 9
    ensures var a, b := ParseHms(HourlyOptions()[i].value), ParseHms(HourlyOptions()[j].value);
      a.Some? && b.Some? && a.value < b.value
    ensures HourlyOptions()[i].value != HourlyOptions()[j].value
  {
    HourlyValues(i);
    HourlyValues(j);
  }

  lemma EightOClock()
    ensures OptionFor(8) == TimeOption("08:00:00", "8:00 AM")
  {
    assert NatToString(8) == "8";
  }

  lemma FourOClock()
    ensures OptionFor(16).value == "16:00:00"
  {
  }

  lemma NoonLabel()
    ensures OptionFor(12).labelText == "12:00 PM"
  {
    assert NatToString(12) == NatToString(1) + [DigitChar(2)];
  }

  lemma OneLabel()
    ensures OptionFor(13).labelText == "1:00 PM"
  {
    assert NatToString(1) == "1";
  }

  /** The first and last values, and the labels at 8, 12 and 13 o'clock. */
  lemma {:induction false} OptionExamples()
    ensures HourlyOptions()[0] == TimeOption("08:00:00", "8:00 AM")
    ensures HourlyOptions()[8].value == "16:00:00"
    ensures HourlyOptions()[4].labelText == "12:00 PM"
    ensures HourlyOptions()[5].labelText == "1:00 PM"
  {
    EightOClock();
    FourOClock();
    NoonLabel();
    OneLabel();
  }

  /** With the default `disabledTimes = []` nothing is disabled. */
  lemma NothingDisabledByDefault(o: TimeOption)
    ensures !IsTimeDisabled([], o.value)
  {
  }

  /** A value is digits and colons: it never contains a space. */
  lemma {:induction false} ValueHasNoSpace(i: nat)
    requires i < 9
    ensures ' ' !in HourlyOptions()[i].value
  {
    var digits := Pad2(FirstHour + i);
    assert HourlyOptions()[i].value == digits + ":00:00";
    assert ' ' !in digits;
  }

  /**
   * The check compares values, not labels: entries written like labels (they
   * hold a space, e.g. "12:00 PM") never disable an option.
   */
  lemma {:induction false} LabelEntriesDisableNothing(disabledTimes: seq<string>, i: nat)
    requires i < 9
    requires forall e :: e in disabledTimes ==> ' ' in e
    ensures !IsTimeDisabled(disabledTimes, HourlyOptions()[i].value)
  {
    ValueHasNoSpace(i);
  }

  /** The list that the booking page passes. */
  lemma {:induction false} BookingPageListDisablesNothing(i: nat)
    requires i < 9
    ensures !IsTimeDisabled(["12:00 PM", "12:30 PM"], HourlyOptions()[i].value)
  {
    var list := ["12:00 PM", "12:30 PM"];
    assert list[0][5] == ' ' && list[1][5] == ' ';
    LabelEntriesDisableNothing(list, i);
  }
}
