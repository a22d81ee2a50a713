/** The schedule: the fixed list of hiring events, the colour of each
    category, and the copies of the events handed to the month-grid widget. */
module Schedule {
  import opened Wrappers

  /** One schedule entry. `start` and `end` are `YYYY-MM-DD` texts; `end`, when
      present, is exclusive. The category is kept as the text the script
      stores, so that an unknown category can be represented. */
  datatype Event = Event(title: string, start: string, end: Option<string>, category: string)

  const Apply: string := "apply"
  const Test: string := "test"
  const Interview: string := "interview"
  const Result: string := "result"

  /** `CATEGORY_COLORS`. */
  const CategoryColors: map<string, string> :=
    map[Apply := "#2f80ed", Test := "#f2994a", Interview := "#9b51e0", Result := "#27ae60"]

  predicate IsKnownCategory(c: string) {
    c in CategoryColors
  }

  /** `CATEGORY_COLORS[c]`; None stands for JavaScript's `undefined`. */
  function ColorOf(c: string): Option<string> {
    if c in CategoryColors then Some(CategoryColors[c]) else None
  }

  /** The four categories are the known ones, each with its own colour, and
      any other category has no colour. */
  lemma CategoryPalette(c: string)
    ensures IsKnownCategory(c) <==> c == Apply || c == Test || c == Interview || c == Result
    ensures ColorOf(c).Some? <==> IsKnownCategory(c)
    ensures ColorOf(Apply) == Some("#2f80ed") && ColorOf(Test) == Some("#f2994a")
    ensures ColorOf(Interview) == Some("#9b51e0") && ColorOf(Result) == Some("#27ae60")
  {
  }

  /** An event as the widget receives it: every field of the original plus a
      background colour (possibly undefined) and a transparent border. */
  datatype CalendarEvent = CalendarEvent(
    title: string, start: string, end: Option<string>, category: string,
    backgroundColor: Option<string>, borderColor: string)

  /** `{ ...event, backgroundColor: CATEGORY_COLORS[event.category], borderColor: "transparent" }` */
  function Decorate(e: Event): CalendarEvent {
    CalendarEvent(e.title, e.start, e.end, e.category, ColorOf(e.category), "transparent")
  }

  /** The original event inside a decorated one. */
  function Undecorate(c: CalendarEvent): Event {
    Event(c.title, c.start, c.end, c.category)
  }

  /** `scheduleEvents.map(...)`: the k-th widget event is the k-th event with
      all its fields, coloured by its category. */
  function DecorateAll(events: seq<Event>): (r: seq<CalendarEvent>)
    ensures |r| == |events|
    ensures forall k :: 0 <= k < |r| ==>
      Undecorate(r[k]) == events[k]
      && r[k].backgroundColor == ColorOf(events[k].category)
      && r[k].borderColor == "transparent"
  {
    if events == [] then [] else [Decorate(events[0])] + DecorateAll(events[1..])
  }

  /** `scheduleEvents`: the fixed list the page shows. */
  const ScheduleEvents: seq<Event> := [
    Event("한국전력공사 서류 접수", "2026-01-05", Some("2026-01-13"), Apply),
    Event("한국도로공사 필기전형", "2026-01-17", None, Test),
    Event("국민건강보험공단 면접", "2026-01-20", Some("2026-01-22"), Interview),
    Event("한국수자원공사 최종 발표", "2026-01-27", None, Result),
    Event("한국철도공사 서류 접수", "2026-02-02", Some("2026-02-09"), Apply),
    Event("근로복지공단 필기전형", "2026-02-14", None, Test),
    Event("한국전력거래소 면접", "2026-02-19", None, Interview),
    Event("한국가스공사 최종 발표", "2026-02-25", None, Result)
  ]

  /** Every scheduled event has a known category, and so a colour. */
  lemma ScheduleCategoriesKnown()
    ensures forall e :: e in ScheduleEvents ==> IsKnownCategory(e.category)
  {
  }
}
