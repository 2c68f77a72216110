/**
 * The calendar export dialog: which events go into the `.ics` file (those
 * whose START lies in the chosen days), how each is handed to the calendar
 * library (all-day events one day longer), the count shown before exporting,
 * the default window and the file name.
 */
module ExportDialog {
  import opened Wrappers
  import opened Text
  import opened Calendar
  import opened Lists

  /** An event as the calendar screen passes it in. */
  datatype CalendarEvent = CalendarEvent(
    title: string,
    description: Option<string>,
    location: Option<string>,
    start: Instant,
    end: Instant,
    allDay: bool,
    isAllDay: bool)

  /** The record handed to `calendar.createEvent`. */
  datatype IcsEvent = IcsEvent(summary: string, description: string, location: string,
                               start: Instant, end: Instant, allDay: bool)

  datatype IcsFile = IcsFile(events: seq<IcsEvent>, fileName: string)

  /** The window: from midnight of the first day to 23:59:59.999 of the last. */
  predicate InWindow(e: CalendarEvent, from: Date, to: Date)
  {
    Time(Midnight(from)) <= Time(e.start) <= Time(Instant(to, DayMs - 1))
  }

  /** `filteredCount`: no event passes when a date input is empty or invalid
      (every comparison with an invalid date is false). */
  function FilteredCount(events: seq<CalendarEvent>, startText: string, endText: string): nat
  {
    var from := ParseIsoDate(startText);
    var to := ParseIsoDate(endText);
    if from.None? || to.None? then 0
    else |Filter(events, (e: CalendarEvent) => InWindow(e, from.value, to.value))|
  }

  /** The `eventData` built for one event. */
  function IcsOf(e: CalendarEvent): (r: IcsEvent)
    ensures r.summary == e.title && r.start == e.start
    ensures r.description == OrElse(e.description, "") && r.location == OrElse(e.location, "")
    ensures r.allDay <==> e.allDay || e.isAllDay
    ensures r.allDay ==> r.end == Instant(NextDay(e.end.date), e.end.ms)
    ensures !r.allDay ==> r.end == e.end
  {
    var base := IcsEvent(e.title, OrElse(e.description, ""), OrElse(e.location, ""), e.start, e.end, false);
    if e.allDay || e.isAllDay then base.(end := Instant(NextDay(e.end.date), e.end.ms), allDay := true)
    else base
  }

  /** An all-day event is exported exactly one day longer. */
  lemma AllDayExportIsOneDayLonger(e: CalendarEvent)
    requires e.allDay || e.isAllDay
    requires ValidDate(e.end.date)
    ensures Time(IcsOf(e).end) == Time(e.end) + DayMs
  {
    NextDayIsOneDayLater(e.end.date, e.end.ms);
  }

  /** The events handed to the calendar, in input order. */
  function IcsEvents(events: seq<CalendarEvent>, from: Date, to: Date): seq<IcsEvent>
    decreases |events|
  {
    if events == [] then []
    else
      var rest := IcsEvents(events[..|events| - 1], from, to);
      var e := events[|events| - 1];
      if InWindow(e, from, to) then rest + [IcsOf(e)] else rest
  }

  /** As many events are exported as pass the window. */
  lemma {:induction false} IcsEventsCount(events: seq<CalendarEvent>, from: Date, to: Date)
    ensures |IcsEvents(events, from, to)| == |Filter(events, (e: CalendarEvent) => InWindow(e, from, to))|
    decreases |events|
  {
    var keep := (e: CalendarEvent) => InWindow(e, from, to);
    if events != [] {
      var init := events[..|events| - 1];
      var last := events[|events| - 1];
      IcsEventsCount(init, from, to);
      FilterConcat(init, [last], keep);
      assert init + [last] == events;
      assert Filter([last], keep) == (if keep(last) then [last] else []) + Filter([], keep);
    }
  }

  /** `handleExport`. Nothing is produced when a date input does not hold a
      date (formatting the file name throws); otherwise the window's events,
      each converted, and the file name are produced. */
  method Export(events: seq<CalendarEvent>, startText: string, endText: string) returns (r: Option<IcsFile>)
    ensures r.None? <==> ParseIsoDate(startText).None? || ParseIsoDate(endText).None?
    ensures r.Some? ==>
              var from := ParseIsoDate(startText).value;
              var to := ParseIsoDate(endText).value;
              && r.value.events == IcsEvents(events, from, to)
              && |r.value.events| == FilteredCount(events, startText, endText)
              && r.value.fileName == "jvc-termine-" + IsoDate(from) + "-" + IsoDate(to) + ".ics"
  {
    var from := ParseIsoDate(startText);
    var to := ParseIsoDate(endText);
    if from.None? || to.None? {
      return None;
    }
    var calendar: seq<IcsEvent> := [];
    for i := 0 to |events|
      invariant calendar == IcsEvents(events[..i], from.value, to.value)
    {
      assert events[..i + 1][..i] == events[..i];
      if InWindow(events[i], from.value, to.value) {
        calendar := calendar + [IcsOf(events[i])];
      }
    }
    assert events[..|events|] == events;
    IcsEventsCount(events, from.value, to.value);
    return Some(IcsFile(calendar, "jvc-termine-" + IsoDate(from.value) + "-" + IsoDate(to.value) + ".ics"));
  }

  /** For a well-formed start instant the window is a range of whole days:
      an event is exported iff its start date lies between the two chosen
      dates, inclusive. Its end plays no part. */
  lemma WindowIsByStartDay(e: CalendarEvent, from: Date, to: Date)
    requires ValidInstant(e.start)
    ensures InWindow(e, from, to) <==> DayNumber(from) <= DayNumber(e.start.date) <= DayNumber(to)
  {
  }

  /** `x` is the conversion of an input event that starts in the window. */
  predicate ExportedFrom(events: seq<CalendarEvent>, from: Date, to: Date, x: IcsEvent)
  {
    exists j :: 0 <= j < |events| && InWindow(events[j], from, to) && x == IcsOf(events[j])
  }

  /** Every exported event is the conversion of an input event in the window. */
  lemma {:induction false} IcsEventsSound(events: seq<CalendarEvent>, from: Date, to: Date)
    ensures forall k :: 0 <= k < |IcsEvents(events, from, to)| ==> ExportedFrom(events, from, to, IcsEvents(events, from, to)[k])
    decreases |events|
  {
    if events != [] {
      var init := events[..|events| - 1];
      var last := events[|events| - 1];
      IcsEventsSound(init, from, to);
      var out := IcsEvents(events, from, to);
      var rest := IcsEvents(init, from, to);
      assert out == if InWindow(last, from, to) then rest + [IcsOf(last)] else rest;
      forall k | 0 <= k < |out|
        ensures ExportedFrom(events, from, to, out[k])
      {
        if k < |rest| {
          assert out[k] == rest[k];
          assert ExportedFrom(init, from, to, rest[k]);
          var j :| 0 <= j < |init| && InWindow(init[j], from, to) && rest[k] == IcsOf(init[j]);
          assert events[j] == init[j];
        } else {
          assert out[k] == IcsOf(events[|events| - 1]) && InWindow(events[|events| - 1], from, to);
        }
      }
    }
  }

  /** Each event of `s` converted, in order. */
  function Converted(s: seq<CalendarEvent>): (r: seq<IcsEvent>)
    ensures |r| == |s|
    decreases |s|
  {
    if s == [] then [] else [IcsOf(s[0])] + Converted(s[1..])
  }

  /** The `k`-th converted event is the conversion of the `k`-th event. */
  lemma {:induction false} ConvertedAt(s: seq<CalendarEvent>, k: nat)
    requires k < |s|
    ensures Converted(s)[k] == IcsOf(s[k])
    decreases k
  {
    if k > 0 {
      ConvertedAt(s[1..], k - 1);
    }
  }

  /** The exported events are exactly the window's events, converted, in
      input order: none is dropped, duplicated or reordered. */
  lemma {:induction false} IcsEventsExact(events: seq<CalendarEvent>, from: Date, to: Date)
    ensures IcsEvents(events, from, to) == Converted(Filter(events, (e: CalendarEvent) => InWindow(e, from, to)))
    decreases |events|
  {
    var keep := (e: CalendarEvent) => InWindow(e, from, to);
    if events != [] {
      var init := events[..|events| - 1];
      var last := events[|events| - 1];
      var tail := if keep(last) then [last] else [];
      assert Converted([last]) == [IcsOf(last)] by {
        assert [last][1..] == [];
      }
      assert init + [last] == events;
      calc {
        IcsEvents(events, from, to);
        IcsEvents(init, from, to) + Converted(tail);
        { IcsEventsExact(init, from, to); }
        Converted(Filter(init, keep)) + Converted(tail);
        { ConvertedConcat(Filter(init, keep), tail); }
        Converted(Filter(init, keep) + tail);
        { FilterSnoc(init, last, keep); }
        Converted(Filter(events, keep));
      }
    }
  }

  /** Conversion distributes over concatenation. */
  lemma {:induction false} ConvertedConcat(a: seq<CalendarEvent>, b: seq<CalendarEvent>)
    ensures Converted(a + b) == Converted(a) + Converted(b)
    decreases |a|
  {
    if a == [] {
      assert a + b == b;
    } else {
      assert (a + b)[1..] == a[1..] + b;
      ConvertedConcat(a[1..], b);
    }
  }

  /** Every input event in the window is exported. */
  lemma IcsEventsComplete(events: seq<CalendarEvent>, from: Date, to: Date, j: nat)
    requires j < |events| && InWindow(events[j], from, to)
    ensures IcsOf(events[j]) in IcsEvents(events, from, to)
  {
    var kept := Filter(events, (e: CalendarEvent) => InWindow(e, from, to));
    IcsEventsExact(events, from, to);
    assert events[j] in kept;
    var k :| 0 <= k < |kept| && kept[k] == events[j];
    ConvertedAt(kept, k);
  }

  /** The default window: today and the day 30 days later (`Date.now()` plus
      30 times 24 hours), as `yyyy-MM-dd`. */
  function DefaultWindow(now: Instant): (r: (string, string))
    ensures r.0 == IsoDate(now.date) && r.1 == IsoDate(AddDays(now.date, 30))
  {
    (IsoDate(now.date), IsoDate(AddDays(now.date, 30)))
  }

  /** The default window reads back as the two dates, 30 days apart. */
  lemma DefaultWindowSpans30Days(now: Instant)
    requires LabelledYear(now.date) && LabelledYear(AddDays(now.date, 30))
    ensures ParseIsoDate(DefaultWindow(now).0) == Some(now.date)
    ensures ParseIsoDate(DefaultWindow(now).1).Some?
    ensures DayNumber(ParseIsoDate(DefaultWindow(now).1).value) == DayNumber(now.date) + 30
  {
    IsoDateRoundTrip(now.date);
    IsoDateRoundTrip(AddDays(now.date, 30));
    AddDaysCounts(now.date, 30);
  }

  /** `Termin wird` for one event, `Termine werden` otherwise. */
  function CountWording(n: nat): (w: string)
    ensures w == "Termin wird" <==> n == 1
    ensures w != "Termin wird" ==> w == "Termine werden"
  {
    if n == 1 then "Termin wird" else "Termine werden"
  }
}
