/**
 * The text of the hourly table's cells in src/widgets/weather_table.rs: the 12-hour caption
 * `parse_hour` makes from a formatted timestamp, and the ten-cell precipitation gauge
 * `render_precip_bar` draws for `precip as u8`.
 */
module WeatherTableWidget {
  import opened Wrappers
  import opened Seqs
  import opened Text

  /** `split_once('T')`: the text after the first 'T', if there is one. */
  function AfterFirstT(s: string): (r: Option<string>)
    ensures r.None? <==> 'T' !in s
    ensures r.Some? ==> exists i :: 0 <= i < |s| && s[i] == 'T' && 'T' !in s[..i] && r.value == s[i + 1..]
  {
    match FirstIndex(s, c => c == 'T')
    case None => None
    case Some(i) => assert s[i] == 'T' && 'T' !in s[..i]; Some(s[i + 1..])
  }

  /**
   * `&s[0..2]` does not panic: the string has at least two bytes and byte 2 is the start of
   * a character (or the end of the string).
   */
  predicate TwoByteSliceOk(s: string)
  {
    || (|s| >= 1 && Utf8Width(s[0]) == 2)
    || (|s| >= 2 && Utf8Width(s[0]) == 1 && Utf8Width(s[1]) == 1)
  }

  /** `&s[0..2]` as characters: one two-byte character, or two ASCII characters. */
  function FirstTwoBytes(s: string): (r: string)
    requires TwoByteSliceOk(s)
    ensures |r| <= |s| && r == s[..|r|] && Utf8Len(r) == 2
  {
    if Utf8Width(s[0]) == 2 then
      assert s[..1][1..] == [];
      s[..1]
    else
      assert s[..2][1..] == [s[1]] && [s[1]][1..] == [];
      assert Utf8Len([s[1]]) == 1;
      assert Utf8Len(s[..2]) == Utf8Width(s[0]) + Utf8Len([s[1]]);
      s[..2]
  }

  /** The hour on a 12-hour clock: 0 reads 12, 13 to 23 drop by 12. */
  function Hour12(hour: u8): nat
  {
    match hour
    case 0 => 12
    case _ => if hour <= 12 then hour else hour - 12
  }

  /** "AM" before noon, "PM" from noon on. */
  function Meridiem(hour: u8): string
  {
    if hour < 12 then "AM" else "PM"
  }

  /** `format!("{} {}", hour_12, suffix)`. */
  function HourLabel(hour: u8): string
  {
    DecimalString(Hour12(hour)) + " " + Meridiem(hour)
  }

  /**
   * `WeatherTable::parse_hour`: `None` without a 'T' or when the two bytes after it are not a
   * `u8`; the slice `[0..2]` panics when those bytes do not end on a character boundary.
   */
  function ParseHour(time: string): (r: Option<string>)
    requires AfterFirstT(time).Some? ==> TwoByteSliceOk(AfterFirstT(time).value)
    ensures 'T' !in time ==> r.None?
    ensures r.Some? <==> AfterFirstT(time).Some? && ParseU8(FirstTwoBytes(AfterFirstT(time).value)).Some?
    ensures r.Some? ==> r.value == HourLabel(ParseU8(FirstTwoBytes(AfterFirstT(time).value)).value)
  {
    match AfterFirstT(time)
    case None => None
    case Some(timePart) =>
      match ParseU8(FirstTwoBytes(timePart))
      case None => None
      case Some(hour) => Some(HourLabel(hour))
  }

  /** Reading a 12-hour clock back: 12 AM is 0, 12 PM is 12, any other PM hour adds 12. */
  function Hour24(hour12: nat, pm: bool): nat
  {
    if hour12 == 12 then (if pm then 12 else 0) else if pm then hour12 + 12 else hour12
  }

  /** The 24-hour value a caption "<h> <AM|PM>" stands for, if it has that form. */
  function HourOfLabel(caption: string): Option<nat>
  {
    if |caption| >= 4 && caption[|caption| - 3] == ' ' && AllDigits(caption[..|caption| - 3])
      && (caption[|caption| - 2..] == "AM" || caption[|caption| - 2..] == "PM")
    then Some(Hour24(DigitsValue(caption[..|caption| - 3]), caption[|caption| - 2..] == "PM"))
    else None
  }

  /**
   * On a day's hours the caption is "<h> AM" before noon and "<h> PM" from noon on, with h
   * between 1 and 12, and it determines the hour: reading it back gives the hour again.
   */
  lemma {:induction false} HourLabelRoundTrip(hour: u8)
    requires hour < 24
    ensures 1 <= Hour12(hour) <= 12
    ensures Meridiem(hour) == "AM" <==> hour < 12
    ensures HourOfLabel(HourLabel(hour)) == Some(hour)
  {
    var caption := HourLabel(hour);
    var digits := DecimalString(Hour12(hour));
    assert caption[..|caption| - 3] == digits;
    assert caption[|caption| - 2..] == Meridiem(hour);
    DigitsValueOfDecimal(Hour12(hour));
  }

  /** Midnight reads "12 AM" and noon "12 PM". */
  lemma MidnightAndNoon()
    ensures HourLabel(0) == "12 AM"
    ensures HourLabel(12) == "12 PM"
  {
    assert DecimalString(12) == "12" by {
      assert DecimalString(1) == "1";
    }
  }

  /**
   * On the string the table formats with "%Y-%m-%dT%H:%M" (a date part without 'T', then the
   * zero-padded hour and minute), `parse_hour` returns the caption of that hour.
   */
  lemma ParseHourOfFormattedTime(date: string, hour: u8, minute: nat)
    requires 'T' !in date && hour < 24 && minute < 60
    ensures var time := date + "T" + ZeroPad2(hour) + ":" + ZeroPad2(minute);
      AfterFirstT(time).Some? && TwoByteSliceOk(AfterFirstT(time).value)
      && ParseHour(time) == Some(HourLabel(hour))
  {
    var time := date + "T" + ZeroPad2(hour) + ":" + ZeroPad2(minute);
    var rest := ZeroPad2(hour) + ":" + ZeroPad2(minute);
    assert time == date + ['T'] + rest;
    assert time[|date|] == 'T' && time[..|date|] == date;
    assert FirstIndex(time, c => c == 'T') == Some(|date|);
    assert time[|date| + 1..] == rest;
    assert rest[..2] == ZeroPad2(hour);
  }

  /**
   * Two ASCII characters after the 'T' that are not an unsigned number, such as "ab" or "1:",
   * give no caption.
   */
  lemma ParseHourRejectsNonNumbers(date: string, rest: string)
    requires 'T' !in date && |rest| >= 2 && (rest[0] as int) < 0x80 && (rest[1] as int) < 0x80
    requires (!IsDigit(rest[0]) && rest[0] != '+') || !IsDigit(rest[1])
    ensures AfterFirstT(date + "T" + rest) == Some(rest)
    ensures ParseHour(date + "T" + rest).None?
  {
    var time := date + "T" + rest;
    assert time[|date|] == 'T' && time[..|date|] == date;
    assert FirstIndex(time, c => c == 'T') == Some(|date|);
    assert time[|date| + 1..] == rest;
    var two := FirstTwoBytes(rest);
    assert two == rest[..2];
    assert two[0] == rest[0] && two[1] == rest[1];
    if two[0] == '+' {
      assert two[1..] == [two[1]];
    }
  }

  /** The gauge's width in cells. */
  const BarWidth := 10

  /** `filled = pct as usize * width / 100`. */
  function FilledCells(pct: u8): (n: nat)
    ensures n == pct / 10
  {
    pct * BarWidth / 100
  }

  /**
   * The text of `render_precip_bar`: "[", the filled cells, the empty cells, "]", then
   * " {pct}%". `None` stands for the panic of `width - filled` when more than ten cells
   * would be filled.
   */
  function PrecipBarText(pct: u8): (r: Option<string>)
    ensures r.None? <==> pct >= 110
    ensures r.Some? ==>
      && |r.value| == 2 + BarWidth + 2 + |DecimalString(pct)|
      && r.value[0] == '[' && r.value[BarWidth + 1] == ']'
      && (forall k :: 1 <= k <= BarWidth ==> r.value[k] == if k <= pct / 10 then '█' else ' ')
      && r.value[BarWidth + 2..] == " " + DecimalString(pct) + "%"
  {
    var filled := FilledCells(pct);
    if filled > BarWidth then None
    else
      var empty := BarWidth - filled;
      var s := "[" + Repeat('█', filled) + Repeat(' ', empty) + "]" + " " + DecimalString(pct) + "%";
      assert s[BarWidth + 2..] == " " + DecimalString(pct) + "%";
      Some(s)
  }

  /** More precipitation never fills fewer cells, and 0 and 100 are the empty and the full bar. */
  lemma FilledCellsMonotone(a: u8, b: u8)
    requires a <= b
    ensures FilledCells(a) <= FilledCells(b)
    ensures FilledCells(0) == 0 && FilledCells(100) == BarWidth
  {
  }

  /**
   * The cell the table renders for an hour: `render_precip_bar(i.precip as u8)`. The cast keeps
   * the low eight bits, so 306 shows as 50%, while 110 to 255 reach the panicking subtraction.
   */
  function PrecipCell(precip: u16): (r: Option<string>)
    ensures r.None? <==> precip % 0x100 >= 110
    ensures r == PrecipBarText(precip % 0x100)
  {
    PrecipBarText(AsU8(precip))
  }

  /** The cast at work: 306 wraps to 50, 110 and 255 panic, 365 wraps to 109 and draws. */
  lemma PrecipCellWraps()
    ensures PrecipCell(306) == PrecipBarText(50)
    ensures PrecipCell(110).None? && PrecipCell(255).None?
    ensures PrecipCell(365).Some?
  {
  }
}
