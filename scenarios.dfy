/** The page's own schedule under the days and windows a visitor sees:
    worked examples of the three summaries on `scheduleEvents`. */
module ScheduleScenarios {
  import opened Wrappers
  import opened Text
  import opened Dates
  import opened Lists
  import opened Schedule
  import MonthlySummary
  import NextEvent

  /** The start days of the scheduled events, in list order. */
  const StartDays: seq<CalendarDate> := [
    Date(2026, 1, 5), Date(2026, 1, 17), Date(2026, 1, 20), Date(2026, 1, 27),
    Date(2026, 2, 2), Date(2026, 2, 14), Date(2026, 2, 19), Date(2026, 2, 25)
  ]

  /** A day's text parses back to the day. */
  lemma Parses(s: string, d: CalendarDate)
    requires s == ToIso(d)
    ensures ParseIso(s) == Some(d)
  {
    ParseIsoOfToIso(d);
  }

  lemma ParsesJanuary5()
    ensures ParseIso("2026-01-05") == Some(StartDays[0])
  {
    Parses("2026-01-05", Date(2026, 1, 5));
  }

  lemma ParsesJanuary17()
    ensures ParseIso("2026-01-17") == Some(StartDays[1])
  {
    Parses("2026-01-17", Date(2026, 1, 17));
  }

  lemma ParsesJanuary20()
    ensures ParseIso("2026-01-20") == Some(StartDays[2])
  {
    Parses("2026-01-20", Date(2026, 1, 20));
  }

  lemma ParsesJanuary27()
    ensures ParseIso("2026-01-27") == Some(StartDays[3])
  {
    Parses("2026-01-27", Date(2026, 1, 27));
  }

  lemma ParsesFebruary2()
    ensures ParseIso("2026-02-02") == Some(StartDays[4])
  {
    Parses("2026-02-02", Date(2026, 2, 2));
  }

  lemma ParsesFebruary14()
    ensures ParseIso("2026-02-14") == Some(StartDays[5])
  {
    Parses("2026-02-14", Date(2026, 2, 14));
  }

  lemma ParsesFebruary19()
    ensures ParseIso("2026-02-19") == Some(StartDays[6])
  {
    Parses("2026-02-19", Date(2026, 2, 19));
  }

  lemma ParsesFebruary25()
    ensures ParseIso("2026-02-25") == Some(StartDays[7])
  {
    Parses("2026-02-25", Date(2026, 2, 25));
  }

  /** Every scheduled start is a well-formed date naming its start day. */
  lemma ScheduleStartsParse()
    ensures |ScheduleEvents| == |StartDays|
    ensures forall k :: 0 <= k < |ScheduleEvents| ==> ParseIso(ScheduleEvents[k].start) == Some(StartDays[k])
  {
    forall k | 0 <= k < |ScheduleEvents|
      ensures ParseIso(ScheduleEvents[k].start) == Some(StartDays[k])
    {
      if k == 0 { ParsesJanuary5(); } else if k == 1 { ParsesJanuary17(); }
      else if k == 2 { ParsesJanuary20(); } else if k == 3 { ParsesJanuary27(); }
      else if k == 4 { ParsesFebruary2(); } else if k == 5 { ParsesFebruary14(); }
      else if k == 6 { ParsesFebruary19(); } else { ParsesFebruary25(); }
    }
  }

  /** On 2026-01-18 the next event is the interview starting 2026-01-20, not
      the written test of 2026-01-17, which has passed. */
  lemma NextEventOnJanuary18()
    ensures NextEvent.EarliestUpcoming(ScheduleEvents, Date(2026, 1, 18)) == Some(2)
    ensures ScheduleEvents[2].title == "국민건강보험공단 면접"
  {
    var today: CalendarDate := Date(2026, 1, 18);
    ScheduleStartsParse();
    forall j | 0 <= j < |StartDays|
      ensures DayNumber(StartDays[j]) < DayNumber(today) <==> j < 2
      ensures DayNumber(StartDays[2]) < DayNumber(StartDays[j]) <==> j > 2
    {
      DayNumberOrder(StartDays[j], today);
      DayNumberOrder(StartDays[2], StartDays[j]);
    }
    NextEvent.EarliestUpcomingIsUnique(ScheduleEvents, today, 2);
  }

  /** Only the four February events start in `[2026-02-01, 2026-03-01)`. */
  lemma FebruaryWindow()
    ensures forall j :: 0 <= j < |ScheduleEvents| ==>
      (MonthlySummary.StartsInWindow(ScheduleEvents[j], Date(2026, 2, 1), Date(2026, 3, 1)) <==> j >= 4)
  {
    var ws: CalendarDate, we: CalendarDate := Date(2026, 2, 1), Date(2026, 3, 1);
    ScheduleStartsParse();
    forall j | 0 <= j < |StartDays|
      ensures MonthlySummary.StartsInWindow(ScheduleEvents[j], ws, we) <==> j >= 4
    {
      DayNumberOrder(StartDays[j], ws);
      DayNumberOrder(StartDays[j], we);
    }
  }

  /** The February window selects the last four events of the schedule. */
  lemma FebruaryMonthEvents()
    ensures MonthlySummary.MonthEvents(ScheduleEvents, Date(2026, 2, 1), Date(2026, 3, 1)) == ScheduleEvents[4..]
  {
    var ws: CalendarDate, we: CalendarDate := Date(2026, 2, 1), Date(2026, 3, 1);
    var inWindow := e => MonthlySummary.StartsInWindow(e, ws, we);
    FebruaryWindow();
    var jan, feb := ScheduleEvents[..4], ScheduleEvents[4..];
    assert ScheduleEvents == jan + feb;
    FilterAppend(jan, feb, inWindow);
    FilterAllOrNone(jan, inWindow);
    FilterAllOrNone(feb, inWindow);
  }

  /** With February 2026 on screen (the widget's month window
      `[2026-02-01, 2026-03-01)`, end exclusive) the
      summary counts one event of each category. */
  lemma FebruarySummary()
    ensures MonthlySummary.Summarize(ScheduleEvents, Date(2026, 2, 1), Date(2026, 3, 1))
            == MonthlySummary.CategoryCounts(1, 1, 1, 1)
  {
    FebruaryMonthEvents();
    var feb := ScheduleEvents[4..];
    assert feb[1..][1..][1..][1..] == [];
    forall c | c in [Apply, Test, Interview, Result]
      ensures MonthlySummary.CountCategory(feb, c) == 1
    {
      assert MonthlySummary.CountCategory(feb[1..][1..][1..], c) == if c == Result then 1 else 0;
      assert MonthlySummary.CountCategory(feb[1..], c) == if c == Apply then 0 else 1;
    }
  }
}
