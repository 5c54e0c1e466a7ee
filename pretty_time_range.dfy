/**
 * `prettyTimeRange` (src/helpers/prettyTimeRange.ts): a doctor's working hours,
 * given as two 24-hour `HH:mm:ss` strings, shown as `hh:mm a – hh:mm a`.
 */
module TimeRangeLabel {
  import opened Wrappers
  import opened Text
  import opened Clock

  /** Space, en dash, space. */
  const Separator: string := " \U{2013} "

  /**
   * Both ends are parsed independently with `HH:mm:ss` and formatted with
   * `hh:mm a`. When either end does not parse, date-fns `format` throws on the
   * Invalid Date; `None` stands for that exception.
   */
  function PrettyTimeRange(workStart: string, workEnd: string): Option<string> {
    match (ParseHms(workStart), ParseHms(workEnd))
    case (Some(s), Some(e)) => Some(Format12(s) + Separator + Format12(e))
    case _ => None
  }

  /**
   * The label is the start, the separator and the end, each eight characters;
   * reading either half back yields its hour and minute, its seconds dropped.
   */
  lemma {:induction false} RangeReadsBack(s: TimeOfDay, e: TimeOfDay)
    ensures PrettyTimeRange(FormatHms(s), FormatHms(e)).Some?
    ensures var r := PrettyTimeRange(FormatHms(s), FormatHms(e)).value;
      && |r| == 19
      && r[8..11] == Separator
      && Read12(r[..8]) == Some(s - SecondOf(s))
      && Read12(r[11..]) == Some(e - SecondOf(e))
  {
    ParseFormatHms(s);
    ParseFormatHms(e);
    var r := Format12(s) + Separator + Format12(e);
    assert r[..8] == Format12(s);
    assert r[11..] == Format12(e);
    Read12Format12(s);
    Read12Format12(e);
  }

  /** Either end failing to parse makes the whole label fail. */
  lemma UnparsableEnd(workStart: string, workEnd: string)
    ensures PrettyTimeRange(workStart, workEnd).Some? <==> ParseHms(workStart).Some? && ParseHms(workEnd).Some?
  {
  }

  lemma NineAm()
    ensures Format12(9 * 3600) == "09:00 AM"
  {
  }

  lemma FivePm()
    ensures Format12(17 * 3600) == "05:00 PM"
  {
  }

  lemma NineParses()
    ensures ParseHms("09:00:00") == Some(9 * 3600)
  {
    assert DecimalValue("09") == 9 && DecimalValue("00") == 0;
    ParseFields("09", "00", "00");
    assert "09" + ":" + "00" + ":" + "00" == "09:00:00";
  }

  lemma SeventeenParses()
    ensures ParseHms("17:00:00") == Some(17 * 3600)
  {
    assert DecimalValue("17") == 17 && DecimalValue("00") == 0;
    ParseFields("17", "00", "00");
    assert "17" + ":" + "00" + ":" + "00" == "17:00:00";
  }

  /** Two parsable ends give their 12-hour forms around the separator. */
  lemma LabelOfParsed(workStart: string, workEnd: string, s: TimeOfDay, e: TimeOfDay)
    requires ParseHms(workStart) == Some(s) && ParseHms(workEnd) == Some(e)
    ensures PrettyTimeRange(workStart, workEnd) == Some(Format12(s) + Separator + Format12(e))
  {
  }

  lemma NineToFiveFormatted()
    ensures Format12(9 * 3600) + Separator + Format12(17 * 3600) == "09:00 AM \U{2013} 05:00 PM"
    ensures Format12(17 * 3600) + Separator + Format12(9 * 3600) == "05:00 PM \U{2013} 09:00 AM"
  {
    NineAm();
    FivePm();
  }

  /** The documented example: nine to five. */
  lemma NineToFive()
    ensures PrettyTimeRange("09:00:00", "17:00:00") == Some("09:00 AM \U{2013} 05:00 PM")
  {
    NineParses();
    SeventeenParses();
    LabelOfParsed("09:00:00", "17:00:00", 9 * 3600, 17 * 3600);
    NineToFiveFormatted();
  }

  /** The ends are not ordered: the reversed pair is formatted just the same. */
  lemma FiveToNine()
    ensures PrettyTimeRange("17:00:00", "09:00:00") == Some("05:00 PM \U{2013} 09:00 AM")
  {
    NineParses();
    SeventeenParses();
    LabelOfParsed("17:00:00", "09:00:00", 17 * 3600, 9 * 3600);
    NineToFiveFormatted();
  }
}
