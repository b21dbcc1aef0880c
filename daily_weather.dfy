/**
 * The forecast-day selector of src/widgets/daily_weather.rs: the daily data, the selected
 * date string, cyclic next/previous selection, the highlight test of `render` and the
 * ordinal day label `format_date_with_suffix`.
 */
module DailyWeatherWidget {
  import opened Wrappers
  import opened Seqs
  import opened Text
  import opened Forecast

  /** The predicate `select_next` and `select_previous` hand to `position`. */
  function Equals(selected: string): string -> bool
  {
    date => date == selected
  }

  /** `dates.iter().position(|date| date == selected)`. */
  function Position(dates: seq<string>, selected: string): (r: Option<nat>)
    ensures r.None? <==> selected !in dates
    ensures r.Some? ==> r.value < |dates| && dates[r.value] == selected
    ensures r.Some? ==> forall j :: 0 <= j < r.value ==> dates[j] != selected
  {
    var r := FirstIndex(dates, Equals(selected));
    assert r.None? ==> forall j :: 0 <= j < |dates| ==> dates[j] != selected;
    r
  }

  /**
   * The index `select_next` reads: one past the selection, or 1 when the selection is not
   * found (`unwrap_or(0) + 1`), wrapping to 0 when it equals the length. On an empty list it
   * is 1, past the end: `data.date[index]` panics.
   */
  function NextIndex(dates: seq<string>, selected: string): nat
  {
    var next := Position(dates, selected).UnwrapOr(0) + 1;
    if next == |dates| then 0 else next
  }

  /**
   * The index `select_previous` reads: one before the selection, the last index when the
   * selection is first or not found. On an empty list `len() - 1` is -1: the usize
   * subtraction underflows.
   */
  function PrevIndex(dates: seq<string>, selected: string): int
  {
    var prev := Position(dates, selected).UnwrapOr(0);
    if prev == 0 then |dates| - 1 else prev - 1
  }

  /** Both moves stay inside a non-empty list, and both fail on an empty one. */
  lemma IndicesInBounds(dates: seq<string>, selected: string)
    ensures |dates| > 0 ==> NextIndex(dates, selected) < |dates| && 0 <= PrevIndex(dates, selected) < |dates|
    ensures |dates| == 0 ==> NextIndex(dates, selected) == 1 && PrevIndex(dates, selected) == -1
  {
  }

  /** The date `select_next` selects. */
  function NextDate(dates: seq<string>, selected: string): (r: string)
    requires |dates| > 0
    ensures r in dates
  {
    dates[NextIndex(dates, selected)]
  }

  /** The date `select_previous` selects. */
  function PrevDate(dates: seq<string>, selected: string): (r: string)
    requires |dates| > 0
    ensures r in dates
  {
    dates[PrevIndex(dates, selected)]
  }

  /** From the date at index i, next goes to i + 1 and previous to i - 1, both wrapping around the ends. */
  lemma NextFromListed(dates: seq<string>, i: nat)
    requires Distinct(dates) && i < |dates|
    ensures NextIndex(dates, dates[i]) == if i + 1 == |dates| then 0 else i + 1
    ensures PrevIndex(dates, dates[i]) == if i == 0 then |dates| - 1 else i - 1
  {
    assert Position(dates, dates[i]) == Some(i);
  }

  /**
   * A selection that is not in the list (the empty string of a first load, or a date from
   * an older forecast) counts as index 0: next goes to index 1 (0 on a one-day list) and
   * previous to the last day.
   */
  lemma MoveFromUnlisted(dates: seq<string>, selected: string)
    requires |dates| > 0 && selected !in dates
    ensures NextIndex(dates, selected) == if |dates| == 1 then 0 else 1
    ensures PrevIndex(dates, selected) == |dates| - 1
  {
  }

  /** With distinct dates and a listed selection, previous undoes next and next undoes previous. */
  lemma PrevUndoesNext(dates: seq<string>, selected: string)
    requires Distinct(dates) && selected in dates
    ensures PrevDate(dates, NextDate(dates, selected)) == selected
    ensures NextDate(dates, PrevDate(dates, selected)) == selected
  {
    var i := Position(dates, selected).value;
    var n := |dates|;
    NextFromListed(dates, i);
    NextFromListed(dates, if i + 1 == n then 0 else i + 1);
    NextFromListed(dates, if i == 0 then n - 1 else i - 1);
  }

  /** `select_next` as a step on selections; an empty list has no step and keeps the selection. */
  function Advance(dates: seq<string>): string -> string
  {
    selected => if |dates| == 0 then selected else NextDate(dates, selected)
  }

  /** A step applied k times. */
  function Iterate<T>(step: T -> T, x: T, k: nat): T
  {
    if k == 0 then x else step(Iterate(step, x, k - 1))
  }

  /** `select_next` applied k times. */
  function NextTimes(dates: seq<string>, selected: string, k: nat): string
  {
    Iterate(Advance(dates), selected, k)
  }

  /** a steps followed by b steps are a + b steps. */
  lemma {:induction false} IterateAdd<T>(step: T -> T, x: T, a: nat, b: nat)
    ensures Iterate(step, Iterate(step, x, a), b) == Iterate(step, x, a + b)
  {
    if b > 0 {
      IterateAdd(step, x, a, b - 1);
    }
  }

  /** Short of the end of the list, k moves forward from index i land on index i + k. */
  lemma {:induction false} NextTimesForward(dates: seq<string>, i: nat, k: nat)
    requires Distinct(dates) && i + k < |dates|
    ensures NextTimes(dates, dates[i], k) == dates[i + k]
  {
    if k > 0 {
      NextTimesForward(dates, i, k - 1);
      NextFromListed(dates, i + k - 1);
    }
  }

  /** From index i, n - i moves forward reach the first date. */
  lemma NextTimesWrap(dates: seq<string>, i: nat)
    requires Distinct(dates) && i < |dates|
    ensures NextTimes(dates, dates[i], |dates| - i) == dates[0]
  {
    var n := |dates|;
    NextTimesForward(dates, i, n - 1 - i);
    NextFromListed(dates, n - 1);
    assert Iterate(Advance(dates), dates[i], n - i)
      == Advance(dates)(Iterate(Advance(dates), dates[i], n - 1 - i));
  }

  /** Pressing next once per day brings the selection back to where it started. */
  lemma NextCycle(dates: seq<string>, i: nat)
    requires Distinct(dates) && i < |dates|
    ensures NextTimes(dates, dates[i], |dates|) == dates[i]
  {
    NextTimesWrap(dates, i);
    NextTimesForward(dates, 0, i);
    IterateAdd(Advance(dates), dates[i], |dates| - i, i);
  }

  /** The highlight test of `render`: the cell's date is selected, or nothing is and it is the first date. */
  predicate Highlighted(dates: seq<string>, selected: string, i: nat)
    requires i < |dates|
    ensures selected != "" ==> (Highlighted(dates, selected, i) <==> dates[i] == selected)
    ensures selected == "" ==> (Highlighted(dates, selected, i) <==> dates[i] == "" || dates[i] == dates[0])
  {
    selected == dates[i] || (selected == "" && dates[0] == dates[i])
  }

  /** The set of highlighted cells. */
  function HighlightedCells(dates: seq<string>, selected: string): set<nat>
  {
    set i: nat | i < |dates| && Highlighted(dates, selected, i)
  }

  /**
   * With distinct dates exactly one cell lights up for a listed selection or for the empty
   * one (the first cell, provided no later date is itself empty), and none for a stale one.
   */
  lemma HighlightExactlyOne(dates: seq<string>, selected: string)
    requires Distinct(dates)
    ensures selected in dates && selected != "" ==>
      HighlightedCells(dates, selected) == {Position(dates, selected).value}
    ensures selected == "" && |dates| > 0 && (forall i :: 0 < i < |dates| ==> dates[i] != "") ==>
      HighlightedCells(dates, selected) == {0}
    ensures selected != "" && selected !in dates ==> HighlightedCells(dates, selected) == {}
  {
    if selected in dates && selected != "" {
      var p := Position(dates, selected).value;
      assert p in HighlightedCells(dates, selected);
    }
    if selected == "" && |dates| > 0 {
      assert 0 in HighlightedCells(dates, selected);
    }
  }

  /** After next from the date at index i, exactly the cell after i is highlighted, cyclically. */
  lemma NextMovesHighlight(dates: seq<string>, i: nat)
    requires Distinct(dates) && "" !in dates && i < |dates|
    ensures HighlightedCells(dates, NextDate(dates, dates[i])) == {if i + 1 == |dates| then 0 else i + 1}
  {
    NextFromListed(dates, i);
    var j := if i + 1 == |dates| then 0 else i + 1;
    assert NextDate(dates, dates[i]) == dates[j];
    assert Position(dates, dates[j]) == Some(j);
    HighlightExactlyOne(dates, dates[j]);
  }

  /** The English ordinal suffix of a day of the month: 11, 12 and 13 take "th". */
  function DaySuffix(day: nat): (r: string)
    ensures r in {"st", "nd", "rd", "th"}
    ensures r == "st" <==> day % 10 == 1 && day != 11
    ensures r == "nd" <==> day % 10 == 2 && day != 12
    ensures r == "rd" <==> day % 10 == 3 && day != 13
  {
    match day
    case 11 | 12 | 13 => "th"
    case _ =>
      match day % 10
      case 1 => "st"
      case 2 => "nd"
      case 3 => "rd"
      case _ => "th"
  }

  /** Over the days of a month the suffixes are exactly 1st, 2nd, 3rd, 21st, 22nd, 23rd and 31st, the rest "th". */
  lemma DaySuffixOfMonth(day: nat)
    requires 1 <= day <= 31
    ensures DaySuffix(day) == "st" <==> day in {1, 21, 31}
    ensures DaySuffix(day) == "nd" <==> day in {2, 22}
    ensures DaySuffix(day) == "rd" <==> day in {3, 23}
    ensures DaySuffix(day) == "th" <==> day !in {1, 2, 3, 21, 22, 23, 31}
  {
  }

  /**
   * `format_date_with_suffix`: "<weekday>, <month> <day><suffix>", or `None` when the string
   * does not parse as "%Y-%m-%d". chrono's weekday and month names are parameters.
   */
  function FormatDateWithSuffix(p: Parsers, weekday: Date -> string, month: Date -> string, input: string): (r: Option<string>)
    ensures r.None? <==> p.date(input).None?
    ensures r.Some? ==> var day := p.date(input).value.day;
      var tail := DecimalString(day) + DaySuffix(day);
      |tail| <= |r.value| && r.value[|r.value| - |tail|..] == tail
  {
    match p.date(input)
    case None => None
    case Some(date) =>
      var day := date.day;
      var s := weekday(date) + ", " + month(date) + " " + DecimalString(day) + DaySuffix(day);
      assert s == (weekday(date) + ", " + month(date) + " ") + (DecimalString(day) + DaySuffix(day));
      Some(s)
  }

  /** `DailyWeather`: the day table's data and the selected date string. */
  class DailyWeather {
    var data: OpenMeteoDaily
    var selectedDate: string

    /** `DailyWeather::default()`. */
    constructor ()
      ensures data == EmptyDaily && selectedDate == ""
    {
      data := EmptyDaily;
      selectedDate := "";
    }

    /**
     * `data`: installs the new series. Only when the previous date list was empty does it
     * touch the selection, and then it reads `first()` of that empty list, so the selection
     * becomes "", never the new first date. A stale selection survives a refresh.
     */
    method Data(d: OpenMeteoDaily)
      modifies this
      ensures data == d
      ensures selectedDate == if |old(data.date)| == 0 then "" else old(selectedDate)
    {
      if |data.date| == 0 {
        // `first()` of the list just found empty, mapped to the empty string
        selectedDate := "";
      }
      data := d;
    }

    /** `select_next`; the source panics on an empty date list. */
    method SelectNext()
      requires |data.date| > 0
      modifies this
      ensures data == old(data)
      ensures selectedDate == NextDate(data.date, old(selectedDate))
    {
      var next := Position(data.date, selectedDate).UnwrapOr(0) + 1;
      var index := if next == |data.date| then 0 else next;
      selectedDate := data.date[index];
    }

    /** `select_previous`; the source underflows on an empty date list. */
    method SelectPrevious()
      requires |data.date| > 0
      modifies this
      ensures data == old(data)
      ensures selectedDate == PrevDate(data.date, old(selectedDate))
    {
      var prev := Position(data.date, selectedDate).UnwrapOr(0);
      var index := if prev == 0 then |data.date| - 1 else prev - 1;
      selectedDate := data.date[index];
    }

    /** `selected`: the selected date string, which may be "" or a date no longer listed. */
    function Selected(): (r: string)
      reads this
      ensures r == selectedDate
    {
      selectedDate
    }
  }
}
