/** `updateNextEvent`: the earliest event that starts today or later. The
    script sorts the upcoming events by start date and takes the first; the
    sort is stable, so among events starting on the same day the one listed
    first is taken. */
module NextEvent {
  import opened Wrappers
  import opened Dates
  import opened Schedule

  /** `new Date(event.start) >= startOfToday`; an unparseable start is an
      invalid date and never upcoming. */
  predicate IsUpcoming(e: Event, today: CalendarDate) {
    match ParseIso(e.start)
    case None => false
    case Some(s) => DayNumber(s) >= DayNumber(today)
  }

  /** The start day of an event whose start parses. */
  function StartDay(e: Event): CalendarDate
    requires ParseIso(e.start).Some?
  {
    ParseIso(e.start).value
  }

  /** The position of the event `sort(...)[0]` picks: an upcoming event, no
      upcoming event starts earlier, and every upcoming event listed before it
      starts strictly later. None when nothing is upcoming. */
  function EarliestUpcoming(events: seq<Event>, today: CalendarDate): (r: Option<nat>)
    ensures r.Some? ==> r.value < |events| && IsUpcoming(events[r.value], today)
    ensures r.Some? ==> forall j :: 0 <= j < |events| && IsUpcoming(events[j], today) ==>
                          DayNumber(StartDay(events[r.value])) <= DayNumber(StartDay(events[j]))
    ensures r.Some? ==> forall j :: 0 <= j < r.value && IsUpcoming(events[j], today) ==>
                          DayNumber(StartDay(events[r.value])) < DayNumber(StartDay(events[j]))
    ensures r.None? ==> forall j :: 0 <= j < |events| ==> !IsUpcoming(events[j], today)
  {
    if events == [] then None
    else
      var rest := EarliestUpcoming(events[1..], today);
      if IsUpcoming(events[0], today)
         && (rest.None? || DayNumber(StartDay(events[0])) <= DayNumber(StartDay(events[1 + rest.value])))
      then Some(0)
      else if rest.None? then None
      else Some(1 + rest.value)
  }

  /** The three conditions on the chosen position single it out: there is
      exactly one stable earliest upcoming event. */
  lemma EarliestUpcomingIsUnique(events: seq<Event>, today: CalendarDate, k: nat)
    requires k < |events| && IsUpcoming(events[k], today)
    requires forall j :: 0 <= j < |events| && IsUpcoming(events[j], today) ==>
               DayNumber(StartDay(events[k])) <= DayNumber(StartDay(events[j]))
    requires forall j :: 0 <= j < k && IsUpcoming(events[j], today) ==>
               DayNumber(StartDay(events[k])) < DayNumber(StartDay(events[j]))
    ensures EarliestUpcoming(events, today) == Some(k)
  {
  }

  const NoUpcomingMessage: string := "예정된 일정이 없습니다."

  /** `updateNextEvent()`, returning the text it writes: the placeholder, or
      the title and formatted start of an earliest upcoming event, the first
      listed among those starting that day. The locale-dependent `formatDate`
      is a parameter. */
  function NextEventText(events: seq<Event>, today: CalendarDate, formatDate: CalendarDate -> string): (text: string)
    ensures (forall e :: e in events ==> !IsUpcoming(e, today)) ==> text == NoUpcomingMessage
    ensures (exists e :: e in events && IsUpcoming(e, today)) ==>
      exists k :: 0 <= k < |events| && IsUpcoming(events[k], today)
        && (forall j :: 0 <= j < |events| && IsUpcoming(events[j], today) ==>
              DayNumber(StartDay(events[k])) <= DayNumber(StartDay(events[j])))
        && text == events[k].title + " · " + formatDate(StartDay(events[k]))
    ensures EarliestUpcoming(events, today).Some? ==>
      var k := EarliestUpcoming(events, today).value;
      (forall j :: 0 <= j < k && IsUpcoming(events[j], today) ==>
         DayNumber(StartDay(events[k])) < DayNumber(StartDay(events[j])))
      && text == events[k].title + " · " + formatDate(StartDay(events[k]))
  {
    match EarliestUpcoming(events, today)
    case None => NoUpcomingMessage
    case Some(k) => events[k].title + " · " + formatDate(StartDay(events[k]))
  }
}
