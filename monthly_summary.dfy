/** `updateMonthlySummary`: count, per category, the events that start in
    the window the calendar shows, and render the counts as one line. */
module MonthlySummary {
  import opened Wrappers
  import opened Text
  import opened Dates
  import opened Lists
  import opened Schedule

  /** `new Date(event.start) >= startDate && new Date(event.start) < endDate`.
      Only the start is looked at; an unparseable start is an invalid date,
      and every comparison with one is false. */
  predicate StartsInWindow(e: Event, windowStart: CalendarDate, windowEnd: CalendarDate) {
    match ParseIso(e.start)
    case None => false
    case Some(s) => DayNumber(s) >= DayNumber(windowStart) && DayNumber(s) < DayNumber(windowEnd)
  }

  /** `monthEvents`: the events starting in `[windowStart, windowEnd)`, in list order. */
  function MonthEvents(events: seq<Event>, windowStart: CalendarDate, windowEnd: CalendarDate): seq<Event> {
    Filter(events, e => StartsInWindow(e, windowStart, windowEnd))
  }

  lemma MonthEventsCons(events: seq<Event>, windowStart: CalendarDate, windowEnd: CalendarDate)
    requires events != []
    ensures MonthEvents(events, windowStart, windowEnd)
            == (if StartsInWindow(events[0], windowStart, windowEnd) then [events[0]] else [])
               + MonthEvents(events[1..], windowStart, windowEnd)
  {
  }

  /** The number of events in `s` whose category is `c`. */
  function CountCategory(s: seq<Event>, c: string): nat {
    if s == [] then 0 else (if s[0].category == c then 1 else 0) + CountCategory(s[1..], c)
  }

  lemma {:induction false} CountCategoryAppend(s: seq<Event>, t: seq<Event>, c: string)
    ensures CountCategory(s + t, c) == CountCategory(s, c) + CountCategory(t, c)
  {
    if s == [] {
      assert s + t == t;
    } else {
      assert (s + t)[1..] == s[1..] + t;
      CountCategoryAppend(s[1..], t, c);
    }
  }

  /** What the summary line shows. */
  datatype Summary =
    | NoEventsThisMonth
    | CategoryCounts(apply: nat, test: nat, interview: nat, result: nat)

  /** The summary of a window, computed from the counts by category. */
  function Summarize(events: seq<Event>, windowStart: CalendarDate, windowEnd: CalendarDate): Summary {
    var month := MonthEvents(events, windowStart, windowEnd);
    if |month| == 0 then NoEventsThisMonth
    else CategoryCounts(CountCategory(month, Apply), CountCategory(month, Test),
                        CountCategory(month, Interview), CountCategory(month, Result))
  }

  /** An event is counted exactly when its start parses and lies in the
      half-open window. The second clause only says that the window test
      never reads the end; that the whole summary ignores the ends is
      `SummaryIgnoresEnds`. */
  lemma MonthEventsAreThoseStartingInWindow(events: seq<Event>, windowStart: CalendarDate, windowEnd: CalendarDate, e: Event)
    ensures e in MonthEvents(events, windowStart, windowEnd)
            <==> e in events && ParseIso(e.start).Some?
                 && DayNumber(windowStart) <= DayNumber(ParseIso(e.start).value) < DayNumber(windowEnd)
    ensures forall end: Option<string> :: StartsInWindow(e.(end := end), windowStart, windowEnd) == StartsInWindow(e, windowStart, windowEnd)
  {
    FilterMembers(events, e => StartsInWindow(e, windowStart, windowEnd));
  }

  /** Replacing the end dates of the events leaves the summary as it was. */
  lemma {:induction false} SummaryIgnoresEnds(events: seq<Event>, ends: seq<Option<string>>, windowStart: CalendarDate, windowEnd: CalendarDate)
    requires |ends| == |events|
    ensures Summarize(seq(|events|, k requires 0 <= k < |events| => events[k].(end := ends[k])), windowStart, windowEnd)
            == Summarize(events, windowStart, windowEnd)
  {
    var moved := seq(|events|, k requires 0 <= k < |events| => events[k].(end := ends[k]));
    forall c | true
      ensures CountCategory(MonthEvents(moved, windowStart, windowEnd), c) == CountCategory(MonthEvents(events, windowStart, windowEnd), c)
      ensures |MonthEvents(moved, windowStart, windowEnd)| == |MonthEvents(events, windowStart, windowEnd)|
    {
      EndsDoNotMatter(events, ends, windowStart, windowEnd, c);
    }
  }

  lemma {:induction false} EndsDoNotMatter(events: seq<Event>, ends: seq<Option<string>>, windowStart: CalendarDate, windowEnd: CalendarDate, c: string)
    requires |ends| == |events|
    ensures var moved := seq(|events|, k requires 0 <= k < |events| => events[k].(end := ends[k]));
            CountCategory(MonthEvents(moved, windowStart, windowEnd), c) == CountCategory(MonthEvents(events, windowStart, windowEnd), c)
            && |MonthEvents(moved, windowStart, windowEnd)| == |MonthEvents(events, windowStart, windowEnd)|
  {
    var moved := seq(|events|, k requires 0 <= k < |events| => events[k].(end := ends[k]));
    if events != [] {
      var moved' := seq(|events| - 1, k requires 0 <= k < |events| - 1 => events[1..][k].(end := ends[1..][k]));
      assert moved[1..] == moved';
      EndsDoNotMatter(events[1..], ends[1..], windowStart, windowEnd, c);
      MonthEventsCons(moved, windowStart, windowEnd);
      MonthEventsCons(events, windowStart, windowEnd);
      assert moved[0] == events[0].(end := ends[0]);
      var head := if StartsInWindow(events[0], windowStart, windowEnd) then [events[0]] else [];
      var head' := if StartsInWindow(moved[0], windowStart, windowEnd) then [moved[0]] else [];
      assert CountCategory(head, c) == CountCategory(head', c);
      CountCategoryAppend(head, MonthEvents(events[1..], windowStart, windowEnd), c);
      CountCategoryAppend(head', MonthEvents(moved', windowStart, windowEnd), c);
    }
  }

  /** The summary is the empty-month message exactly when no event starts
      in the window. */
  lemma EmptyMonthIff(events: seq<Event>, windowStart: CalendarDate, windowEnd: CalendarDate)
    ensures Summarize(events, windowStart, windowEnd) == NoEventsThisMonth
            <==> forall e :: e in events ==> !StartsInWindow(e, windowStart, windowEnd)
  {
    var month := MonthEvents(events, windowStart, windowEnd);
    FilterMembers(events, e => StartsInWindow(e, windowStart, windowEnd));
    if |month| > 0 {
      assert month[0] in month;
    }
  }

  /** In any list the four counts add up to at most the number of events,
      and to exactly that number when every category is a known one. */
  lemma {:induction false} CategoryCountsSum(s: seq<Event>)
    ensures CountCategory(s, Apply) + CountCategory(s, Test)
            + CountCategory(s, Interview) + CountCategory(s, Result) <= |s|
    ensures (forall e :: e in s ==> IsKnownCategory(e.category)) ==>
            CountCategory(s, Apply) + CountCategory(s, Test)
            + CountCategory(s, Interview) + CountCategory(s, Result) == |s|
  {
    if s != [] {
      CategoryCountsSum(s[1..]);
      assert forall e :: e in s[1..] ==> e in s;
    }
  }

  /** The displayed counts add up to the number of events starting in the
      window when all categories are known (never to more). */
  lemma SummaryCountsAddUp(events: seq<Event>, windowStart: CalendarDate, windowEnd: CalendarDate)
    requires forall e :: e in events ==> IsKnownCategory(e.category)
    ensures var r := Summarize(events, windowStart, windowEnd);
            r.CategoryCounts? ==>
              r.apply + r.test + r.interview + r.result == |MonthEvents(events, windowStart, windowEnd)| > 0
  {
    var month := MonthEvents(events, windowStart, windowEnd);
    FilterMembers(events, e => StartsInWindow(e, windowStart, windowEnd));
    CategoryCountsSum(month);
  }

  /** The `reduce` at the heart of the summary: a map from each category that
      occurs to the number of its events. */
  method GroupByCategory(events: seq<Event>) returns (grouped: map<string, nat>)
    ensures forall c :: c in grouped <==> CountCategory(events, c) > 0
    ensures forall c :: c in grouped ==> grouped[c] == CountCategory(events, c)
  {
    grouped := map[];
    for i := 0 to |events|
      invariant forall c :: c in grouped <==> CountCategory(events[..i], c) > 0
      invariant forall c :: c in grouped ==> grouped[c] == CountCategory(events[..i], c)
    {
      var c := events[i].category;
      assert events[..i + 1] == events[..i] + [events[i]];
      forall c' ensures CountCategory(events[..i + 1], c') == CountCategory(events[..i], c') + (if c' == c then 1 else 0) {
        CountCategoryAppend(events[..i], [events[i]], c');
        assert [events[i]][1..] == [];
      }
      grouped := grouped[c := (if c in grouped then grouped[c] else 0) + 1];
    }
    assert events[..|events|] == events;
  }

  /** `grouped.c || 0` */
  function CountOr0(grouped: map<string, nat>, c: string): nat {
    if c in grouped then grouped[c] else 0
  }

  const EmptyMonthMessage: string := "이번 달 일정이 없습니다."
  const Separator: string := " · "
  /** The caption shown before each count, in display order apply, test, interview, result. */
  const CountLabels: seq<string> := ["서류", "필기", "면접", "발표"]

  /** `${caption} ${n}건` */
  function CountText(caption: string, n: nat): string {
    caption + " " + Decimal(n) + "건"
  }

  function CountTexts(captions: seq<string>, counts: seq<nat>): (r: seq<string>)
    requires |captions| == |counts|
    ensures |r| == |captions|
  {
    if captions == [] then [] else [CountText(captions[0], counts[0])] + CountTexts(captions[1..], counts[1..])
  }

  lemma CountTextsInDisplayOrder(a: nat, t: nat, i: nat, r: nat)
    ensures CountTexts(CountLabels, [a, t, i, r])
            == [CountText("서류", a), CountText("필기", t), CountText("면접", i), CountText("발표", r)]
  {
    var cs := [a, t, i, r];
    assert CountLabels[3..] == ["발표"] && cs[3..] == [r];
    assert CountTexts(CountLabels[3..], cs[3..]) == [CountText("발표", r)] by {
      assert CountLabels[3..][1..] == [] && cs[3..][1..] == [];
    }
    assert CountLabels[2..][1..] == CountLabels[3..] && cs[2..][1..] == cs[3..];
    assert CountLabels[1..][1..] == CountLabels[2..] && cs[1..][1..] == cs[2..];
    assert CountTexts(CountLabels[2..], cs[2..]) == [CountText("면접", i)] + CountTexts(CountLabels[3..], cs[3..]);
    assert CountTexts(CountLabels[1..], cs[1..]) == [CountText("필기", t)] + CountTexts(CountLabels[2..], cs[2..]);
  }

  /** The text written into the summary element. */
  function SummaryText(s: Summary): string {
    match s
    case NoEventsThisMonth => EmptyMonthMessage
    case CategoryCounts(a, t, i, r) => Join(CountTexts(CountLabels, [a, t, i, r]), Separator)
  }

  /** `updateMonthlySummary(startDate, endDate)`, returning the text it writes. */
  method UpdateMonthlySummary(events: seq<Event>, windowStart: CalendarDate, windowEnd: CalendarDate)
    returns (text: string)
    ensures text == SummaryText(Summarize(events, windowStart, windowEnd))
  {
    var monthEvents := MonthEvents(events, windowStart, windowEnd);
    if |monthEvents| == 0 {
      return EmptyMonthMessage;
    }
    var grouped := GroupByCategory(monthEvents);
    CountTextsInDisplayOrder(CountOr0(grouped, Apply), CountOr0(grouped, Test),
                             CountOr0(grouped, Interview), CountOr0(grouped, Result));
    text := Join([
      CountText("서류", CountOr0(grouped, Apply)),
      CountText("필기", CountOr0(grouped, Test)),
      CountText("면접", CountOr0(grouped, Interview)),
      CountText("발표", CountOr0(grouped, Result))
    ], Separator);
  }

  // Reading a summary line back: the rendered text determines the summary.

  /** Reads `${caption} ${n}건` at the front of `t`, returning n and what follows. */
  function ParseCount(t: string, caption: string): Option<(nat, string)> {
    var head := caption + " ";
    if !IsPrefix(head, t) then None
    else
      var u := t[|head|..];
      var ds := LeadingDigits(u);
      if ds != [] && |ds| < |u| && u[|ds|] == '건' then Some((DigitsValue(ds), u[|ds| + 1..]))
      else None
  }

  /** Reads counts labelled `captions` in order, joined by the separator. */
  function ParseCounts(t: string, captions: seq<string>): Option<seq<nat>>
    requires |captions| >= 1
    decreases |captions|
  {
    match ParseCount(t, captions[0])
    case None => None
    case Some((n, rest)) =>
      if |captions| == 1 then (if rest == [] then Some([n]) else None)
      else if !IsPrefix(Separator, rest) then None
      else match ParseCounts(rest[|Separator|..], captions[1..])
        case None => None
        case Some(ns) => Some([n] + ns)
  }

  function ParseSummaryText(t: string): Option<Summary> {
    if t == EmptyMonthMessage then Some(NoEventsThisMonth)
    else match ParseCounts(t, CountLabels)
      case Some(ns) =>
        if |ns| == 4 then Some(CategoryCounts(ns[0], ns[1], ns[2], ns[3])) else None
      case None => None
  }

  lemma ParseCountOfCountText(caption: string, n: nat, rest: string)
    ensures ParseCount(CountText(caption, n) + rest, caption) == Some((n, rest))
  {
    var head := caption + " ";
    var t := CountText(caption, n) + rest;
    var u := Decimal(n) + ("건" + rest);
    assert t == head + u;
    assert t[|head|..] == u;
    LeadingDigitsAppend(Decimal(n), "건" + rest);
    DecimalRoundTrip(n);
    assert u[|Decimal(n)| + 1..] == rest;
  }

  /** Rendering more than one count: the first count's text, the separator,
      then the rest. */
  lemma JoinCountTextsCons(captions: seq<string>, counts: seq<nat>)
    requires |captions| == |counts| >= 2
    ensures Join(CountTexts(captions, counts), Separator)
            == CountText(captions[0], counts[0]) + (Separator + Join(CountTexts(captions[1..], counts[1..]), Separator))
  {
  }

  /** Reading more than one count: the first count, the separator, then the rest. */
  lemma ParseCountsCons(t: string, captions: seq<string>, n: nat, tail: string, ns: seq<nat>)
    requires |captions| >= 2
    requires ParseCount(t, captions[0]) == Some((n, Separator + tail))
    requires ParseCounts(tail, captions[1..]) == Some(ns)
    ensures ParseCounts(t, captions) == Some([n] + ns)
  {
  }

  lemma {:induction false} ParseCountsOfJoin(captions: seq<string>, counts: seq<nat>)
    requires |captions| == |counts| >= 1
    ensures ParseCounts(Join(CountTexts(captions, counts), Separator), captions) == Some(counts)
  {
    if |captions| == 1 {
      assert CountTexts(captions, counts) == [CountText(captions[0], counts[0])];
      ParseCountOfCountText(captions[0], counts[0], []);
      assert CountText(captions[0], counts[0]) + [] == CountText(captions[0], counts[0]);
      assert counts == [counts[0]];
    } else {
      var tail := Join(CountTexts(captions[1..], counts[1..]), Separator);
      JoinCountTextsCons(captions, counts);
      ParseCountOfCountText(captions[0], counts[0], Separator + tail);
      ParseCountsOfJoin(captions[1..], counts[1..]);
      ParseCountsCons(Join(CountTexts(captions, counts), Separator), captions, counts[0], tail, counts[1..]);
      assert counts == [counts[0]] + counts[1..];
    }
  }

  /** Reading the rendered text gives back the summary it was rendered from. */
  lemma SummaryTextRoundTrip(s: Summary)
    ensures ParseSummaryText(SummaryText(s)) == Some(s)
  {
    if s.CategoryCounts? {
      var counts := [s.apply, s.test, s.interview, s.result];
      var t := SummaryText(s);
      ParseCountsOfJoin(CountLabels, counts);
      var texts := CountTexts(CountLabels, counts);
      assert t[0] == texts[0][0] == '서';
      assert t != EmptyMonthMessage;
    }
  }

  /** Distinct summaries are rendered as distinct texts; in particular the
      empty-month message is never a line of counts. */
  lemma SummaryTextInjective(s1: Summary, s2: Summary)
    ensures SummaryText(s1) == SummaryText(s2) <==> s1 == s2
  {
    SummaryTextRoundTrip(s1);
    SummaryTextRoundTrip(s2);
  }
}
