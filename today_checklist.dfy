/** `updateTodayChecklist`: list the events that take place today, with the
    hiring phase in each title set off by a dash. Today is fixed when the page
    loads and is compared with the events' dates as text. */
module TodayChecklist {
  import opened Wrappers
  import opened Text
  import opened Dates
  import opened Lists
  import opened Schedule

  /** `event.end` is truthy: present and not the empty text. */
  predicate HasEnd(e: Event) {
    e.end.Some? && e.end.value != ""
  }

  /** The filter at the top of `updateTodayChecklist`: a single-day event
      takes place on its start, a ranged one on `[start, end)`, both judged
      by comparing `YYYY-MM-DD` texts. */
  predicate TakesPlaceOn(e: Event, todayIso: string) {
    if !HasEnd(e) then e.start == todayIso
    else !LexLess(todayIso, e.start) && LexLess(todayIso, e.end.value)
  }

  /** `todayEvents`, in list order. */
  function TodayEvents(events: seq<Event>, today: CalendarDate): seq<Event> {
    Filter(events, e => TakesPlaceOn(e, ToIso(today)))
  }

  /** A single-day event is selected exactly on the day its start names. */
  lemma SingleDaySelection(e: Event, today: CalendarDate)
    requires !HasEnd(e)
    ensures TakesPlaceOn(e, ToIso(today)) <==> ParseIso(e.start) == Some(today)
  {
    ParseIsoIff(e.start, today);
  }

  /** A ranged event with well-formed dates is selected exactly on the days
      of its half-open range: the text comparisons are the chronological ones. */
  lemma RangedSelection(e: Event, today: CalendarDate, start: CalendarDate, end: CalendarDate)
    requires HasEnd(e) && ParseIso(e.start) == Some(start) && ParseIso(e.end.value) == Some(end)
    ensures TakesPlaceOn(e, ToIso(today)) <==> DayNumber(start) <= DayNumber(today) < DayNumber(end)
  {
    ToIsoOfParseIso(e.start);
    ToIsoOfParseIso(e.end.value);
    IsoOrderIsChronological(today, start);
    IsoOrderIsChronological(today, end);
  }

  /** The checklist's events are exactly the listed events that take place
      today, and they keep the list's order. */
  lemma TodayEventsSelection(events: seq<Event>, more: seq<Event>, today: CalendarDate)
    ensures forall e :: e in TodayEvents(events, today) <==> e in events && TakesPlaceOn(e, ToIso(today))
    ensures TodayEvents(events + more, today) == TodayEvents(events, today) + TodayEvents(more, today)
  {
    FilterMembers(events, e => TakesPlaceOn(e, ToIso(today)));
    FilterAppend(events, more, e => TakesPlaceOn(e, ToIso(today)));
  }

  /** The phrases of `/(서류 접수|필기전형|면접|최종 발표)/`. */
  const Keywords: seq<string> := ["서류 접수", "필기전형", "면접", "최종 발표"]

  predicate StartsWithKeyword(t: string) {
    exists k :: 0 <= k < |Keywords| && IsPrefix(Keywords[k], t)
  }

  /** The leftmost position at or after `from` where a keyword begins:
      where the regular expression, without the global flag, matches. */
  function FirstKeywordFrom(t: string, from: nat): (r: Option<nat>)
    requires from <= |t|
    ensures r.Some? ==> from <= r.value <= |t| && StartsWithKeyword(t[r.value..])
    ensures r.Some? ==> forall j :: from <= j < r.value ==> !StartsWithKeyword(t[j..])
    ensures r.None? ==> forall j :: from <= j <= |t| ==> !StartsWithKeyword(t[j..])
    decreases |t| - from
  {
    if StartsWithKeyword(t[from..]) then Some(from)
    else if from == |t| then None
    else FirstKeywordFrom(t, from + 1)
  }

  /** `title.replace(/(서류 접수|필기전형|면접|최종 발표)/, "— $1")` */
  function Highlight(title: string): string {
    match FirstKeywordFrom(title, 0)
    case None => title
    case Some(i) => title[..i] + "— " + title[i..]
  }

  /** The dash goes right before the first keyword in the title, and
      nothing else changes. */
  lemma HighlightFirstKeyword(title: string, i: nat)
    requires i <= |title| && StartsWithKeyword(title[i..])
    requires forall j :: 0 <= j < i ==> !StartsWithKeyword(title[j..])
    ensures Highlight(title) == title[..i] + "— " + title[i..]
    ensures |Highlight(title)| == |title| + 2
  {
  }

  /** A title without any keyword is shown as it is. */
  lemma HighlightWithoutKeyword(title: string)
    requires forall j :: 0 <= j <= |title| ==> !StartsWithKeyword(title[j..])
    ensures Highlight(title) == title
  {
  }

  const NoEventsTodayMessage: string := "오늘 일정이 없습니다."

  /** `updateTodayChecklist()`, returning the texts of the list items it
      appends to the emptied list: one placeholder when nothing takes place
      today, otherwise one highlighted title per event, in list order. */
  method UpdateTodayChecklist(events: seq<Event>, today: CalendarDate) returns (items: seq<string>)
    ensures TodayEvents(events, today) == [] ==> items == [NoEventsTodayMessage]
    ensures TodayEvents(events, today) != [] ==>
      |items| == |TodayEvents(events, today)|
      && forall k :: 0 <= k < |items| ==> items[k] == Highlight(TodayEvents(events, today)[k].title)
  {
    var todayEvents := TodayEvents(events, today);
    items := [];
    if |todayEvents| == 0 {
      items := items + [NoEventsTodayMessage];
      return;
    }
    for i := 0 to |todayEvents|
      invariant |items| == i
      invariant forall k :: 0 <= k < i ==> items[k] == Highlight(todayEvents[k].title)
    {
      items := items + [Highlight(todayEvents[i].title)];
    }
  }
}
