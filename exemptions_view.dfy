/**
 * The exemption list screen: the entries built from the attendances of
 * events that require an exemption, sorted by start and name; the airline
 * filter; the date column; the airline options; the export guard and the
 * count line.
 */
module ExemptionsView {
  import opened Wrappers
  import opened Text
  import opened Calendar
  import opened Records
  import opened Lists
  import opened Sorting

  /** One row of the list (`ExemptionEntry`). */
  datatype ScreenEntry = ScreenEntry(
    id: string,
    userName: string,
    userId: UserId,
    airlineId: Option<AirlineId>,
    airlineName: Option<string>,
    eventTitle: string,
    start: Instant,
    end: Instant,
    isAllDay: bool)

  /** `profile.airline_id ? airlinesMap.get(profile.airline_id) || null : null`,
      where the map keeps the last airline listed under an id. */
  function AirlineName(airlines: seq<Airline>, airlineId: Option<AirlineId>): (r: Option<string>)
    ensures !Truthy(airlineId) ==> r.None?
    ensures Truthy(airlineId) && (forall k :: 0 <= k < |airlines| ==> airlines[k].id != airlineId.value) ==> r.None?
    ensures r.Some? ==>
              && Truthy(airlineId) && r.value != ""
              && exists k :: 0 <= k < |airlines| && airlines[k].id == airlineId.value && airlines[k].name == r.value
                             && forall j :: k < j < |airlines| ==> airlines[j].id != airlineId.value
    ensures forall k :: Truthy(airlineId) && 0 <= k < |airlines| && airlines[k].id == airlineId.value
                        && (forall j :: k < j < |airlines| ==> airlines[j].id != airlineId.value) ==>
              r == if airlines[k].name != "" then Some(airlines[k].name) else None
  {
    if !Truthy(airlineId) then None
    else
      var a := FindLast(airlines, (x: Airline) => x.id == airlineId.value);
      if a.Some? && a.value.name != "" then Some(a.value.name) else None
  }

  function EntryOf(a: Attendance, e: Event, p: Profile, airlines: seq<Airline>): ScreenEntry
  {
    ScreenEntry(a.id, OrElse(p.fullName, "Unbekannt"), p.id, p.airlineId, AirlineName(airlines, p.airlineId),
                e.title, e.start, e.end, e.isAllDay)
  }

  /** The first query: events whose own `requires_exemption` is set. */
  function ExemptingEvents(events: seq<Event>): seq<Event>
  {
    Filter(events, (e: Event) => e.requiresExemption)
  }

  /** The second query: attendances on those events with an attending status. */
  function AttendingRows(attendances: seq<Attendance>, events: seq<Event>): seq<Attendance>
  {
    Filter(attendances, (a: Attendance) => EventById(events, a.eventId).Some? && IsAttending(a.status))
  }

  /** The entry loop: one entry per attendance whose event and profile are found. */
  function Entries(events: seq<Event>, rows: seq<Attendance>, profiles: seq<Profile>, airlines: seq<Airline>)
    : seq<ScreenEntry>
    decreases |rows|
  {
    if rows == [] then []
    else
      var rest := Entries(events, rows[..|rows| - 1], profiles, airlines);
      var a := rows[|rows| - 1];
      var e := EventById(events, a.eventId);
      var p := ProfileById(profiles, a.userId);
      if e.Some? && p.Some? then rest + [EntryOf(a, e.value, p.value, airlines)] else rest
  }

  /** The entries, before sorting, for the given tables. */
  function ScreenCandidates(events: seq<Event>, attendances: seq<Attendance>, profiles: seq<Profile>,
                            airlines: seq<Airline>): seq<ScreenEntry>
  {
    var evs := ExemptingEvents(events);
    Entries(evs, AttendingRows(attendances, evs), profiles, airlines)
  }

  /** The comparator: earlier start first, then by name. */
  predicate ScreenLeq(a: ScreenEntry, b: ScreenEntry)
  {
    Time(a.start) < Time(b.start) || (Time(a.start) == Time(b.start) && LexLeq(a.userName, b.userName))
  }

  lemma ScreenLeqIsTotalPreorder()
    ensures TotalPreorder(ScreenLeq)
  {
    forall x: ScreenEntry, y: ScreenEntry
      ensures ScreenLeq(x, y) || ScreenLeq(y, x)
    {
      LexLeqTotal(x.userName, y.userName);
    }
    forall x: ScreenEntry, y: ScreenEntry, z: ScreenEntry | ScreenLeq(x, y) && ScreenLeq(y, z)
      ensures ScreenLeq(x, z)
    {
      if LexLeq(x.userName, y.userName) && LexLeq(y.userName, z.userName) {
        LexLeqTransitive(x.userName, y.userName, z.userName);
      }
    }
  }

  /** `loadExemptions`. `None` when the screen keeps its previous list (a query
      failed); an empty list when no event requires an exemption; otherwise
      the entries, sorted in place by start and name. */
  method LoadExemptions(events: seq<Event>, eventsFailed: bool, attendances: seq<Attendance>,
                        attendancesFailed: bool, profiles: seq<Profile>, airlines: Option<seq<Airline>>)
    returns (r: Option<seq<ScreenEntry>>)
    ensures eventsFailed ==> r.None?
    ensures !eventsFailed && ExemptingEvents(events) == [] ==> r == Some([])
    ensures !eventsFailed && ExemptingEvents(events) != [] && attendancesFailed ==> r.None?
    ensures !eventsFailed && ExemptingEvents(events) != [] && !attendancesFailed ==>
              && r.Some?
              && multiset(r.value) == multiset(ScreenCandidates(events, attendances, profiles, Rows(airlines)))
              && SortedBy(r.value, ScreenLeq)
  {
    if eventsFailed {
      return None;
    }
    var evs := ExemptingEvents(events);
    if |evs| == 0 {
      return Some([]);
    }
    if attendancesFailed {
      return None;
    }
    var entries := BuildEntries(evs, AttendingRows(attendances, evs), profiles, Rows(airlines));
    var sorted := SortEntries(entries);
    return Some(sorted);
  }

  /** The entry loop of `loadExemptions`. */
  method BuildEntries(events: seq<Event>, rows: seq<Attendance>, profiles: seq<Profile>, airlines: seq<Airline>)
    returns (entries: seq<ScreenEntry>)
    ensures entries == Entries(events, rows, profiles, airlines)
  {
    entries := [];
    for i := 0 to |rows|
      invariant entries == Entries(events, rows[..i], profiles, airlines)
    {
      assert rows[..i + 1][..i] == rows[..i];
      var e := EventById(events, rows[i].eventId);
      var p := ProfileById(profiles, rows[i].userId);
      if e.Some? && p.Some? {
        entries := entries + [EntryOf(rows[i], e.value, p.value, airlines)];
      }
    }
    assert rows[..|rows|] == rows;
  }

  /** `entries.sort(...)` with the start-then-name comparator. */
  method SortEntries(entries: seq<ScreenEntry>) returns (sorted: seq<ScreenEntry>)
    ensures multiset(sorted) == multiset(entries)
    ensures SortedBy(sorted, ScreenLeq)
  {
    var a := new ScreenEntry[|entries|](k requires 0 <= k < |entries| => entries[k]);
    assert a[..] == entries;
    ScreenLeqIsTotalPreorder();
    InsertionSort(a, ScreenLeq);
    sorted := a[..];
  }

  // ---------------------------------------------------------------------------
  // Which attendances become entries

  lemma {:induction false} EntriesSound(events: seq<Event>, rows: seq<Attendance>, profiles: seq<Profile>,
                                        airlines: seq<Airline>, x: ScreenEntry)
    requires x in Entries(events, rows, profiles, airlines)
    ensures exists a :: a in rows && EventById(events, a.eventId).Some? && ProfileById(profiles, a.userId).Some?
                        && x == EntryOf(a, EventById(events, a.eventId).value, ProfileById(profiles, a.userId).value, airlines)
    decreases |rows|
  {
    var init := rows[..|rows| - 1];
    var a := rows[|rows| - 1];
    if x in Entries(events, init, profiles, airlines) {
      EntriesSound(events, init, profiles, airlines, x);
      var b :| b in init && EventById(events, b.eventId).Some? && ProfileById(profiles, b.userId).Some?
               && x == EntryOf(b, EventById(events, b.eventId).value, ProfileById(profiles, b.userId).value, airlines);
      assert b in rows;
    } else {
      assert a in rows;
    }
  }

  lemma {:induction false} EntriesComplete(events: seq<Event>, rows: seq<Attendance>, profiles: seq<Profile>,
                                           airlines: seq<Airline>, a: Attendance)
    requires a in rows && EventById(events, a.eventId).Some? && ProfileById(profiles, a.userId).Some?
    ensures EntryOf(a, EventById(events, a.eventId).value, ProfileById(profiles, a.userId).value, airlines)
            in Entries(events, rows, profiles, airlines)
    decreases |rows|
  {
    if a != rows[|rows| - 1] {
      assert a in rows[..|rows| - 1] by {
        var k :| 0 <= k < |rows| && rows[k] == a;
        assert rows[..|rows| - 1][k] == a;
      }
      EntriesComplete(events, rows[..|rows| - 1], profiles, airlines, a);
    }
  }

  /** Every entry comes from an attending row on an event whose own flag asks
      for an exemption, and from a profile that exists. */
  lemma ScreenEntryOrigin(events: seq<Event>, attendances: seq<Attendance>, profiles: seq<Profile>,
                          airlines: seq<Airline>, x: ScreenEntry)
    requires x in ScreenCandidates(events, attendances, profiles, airlines)
    ensures exists a, e :: a in attendances && e in events
                           && IsAttending(a.status) && e.requiresExemption && e.id == a.eventId
                           && ProfileById(profiles, a.userId).Some?
                           && x == EntryOf(a, e, ProfileById(profiles, a.userId).value, airlines)
  {
    var evs := ExemptingEvents(events);
    var rows := AttendingRows(attendances, evs);
    EntriesSound(evs, rows, profiles, airlines, x);
    var a :| a in rows && EventById(evs, a.eventId).Some? && ProfileById(profiles, a.userId).Some?
             && x == EntryOf(a, EventById(evs, a.eventId).value, ProfileById(profiles, a.userId).value, airlines);
    var e := EventById(evs, a.eventId).value;
    assert e in evs;
  }

  /** Conversely every attending row on such an event, with a profile, gives
      an entry, whatever the row's own `requires_exemption` says. */
  lemma ScreenEntryPresent(events: seq<Event>, attendances: seq<Attendance>, profiles: seq<Profile>,
                           airlines: seq<Airline>, a: Attendance)
    requires a in attendances && IsAttending(a.status)
    requires EventById(ExemptingEvents(events), a.eventId).Some? && ProfileById(profiles, a.userId).Some?
    ensures EntryOf(a, EventById(ExemptingEvents(events), a.eventId).value, ProfileById(profiles, a.userId).value, airlines)
            in ScreenCandidates(events, attendances, profiles, airlines)
  {
    var evs := ExemptingEvents(events);
    EntriesComplete(evs, AttendingRows(attendances, evs), profiles, airlines, a);
  }

  // ---------------------------------------------------------------------------
  // Airline filter and options

  /** Whether the airline selector keeps an entry. */
  predicate AirlineMatches(selected: string, x: ScreenEntry)
  {
    if selected == "all" then true
    else if selected == "none" then !Truthy(x.airlineId)
    else x.airlineId == Some(selected)
  }

  /** `filteredExemptions`. */
  function FilterByAirline(entries: seq<ScreenEntry>, selected: string): (r: seq<ScreenEntry>)
    ensures selected == "all" ==> r == entries
    ensures forall k :: 0 <= k < |r| ==> r[k] in entries && AirlineMatches(selected, r[k])
    ensures forall k :: 0 <= k < |entries| && AirlineMatches(selected, entries[k]) ==> entries[k] in r
  {
    if selected == "all" then entries
    else if selected == "none" then Filter(entries, (x: ScreenEntry) => !Truthy(x.airlineId))
    else Filter(entries, (x: ScreenEntry) => x.airlineId == Some(selected))
  }

  /** Filtering keeps the order of the list: it distributes over concatenation. */
  lemma FilterByAirlineKeepsOrder(a: seq<ScreenEntry>, b: seq<ScreenEntry>, selected: string)
    ensures FilterByAirline(a + b, selected) == FilterByAirline(a, selected) + FilterByAirline(b, selected)
  {
    if selected == "none" {
      FilterConcat(a, b, (x: ScreenEntry) => !Truthy(x.airlineId));
    } else if selected != "all" {
      FilterConcat(a, b, (x: ScreenEntry) => x.airlineId == Some(selected));
    }
  }

  datatype SelectOption = SelectOption(value: string, caption: string)

  /** `airlineOptions`: the two fixed choices, then the airlines in load order. */
  function AirlineOptions(airlines: seq<Airline>): (r: seq<SelectOption>)
    ensures |r| == |airlines| + 2
    ensures r[0] == SelectOption("all", "Alle Airlines") && r[1] == SelectOption("none", "Ohne Airline")
    ensures forall k :: 0 <= k < |airlines| ==> r[k + 2] == SelectOption(airlines[k].id, airlines[k].name)
    decreases |airlines|
  {
    if airlines == [] then [SelectOption("all", "Alle Airlines"), SelectOption("none", "Ohne Airline")]
    else AirlineOptions(airlines[..|airlines| - 1]) + [SelectOption(airlines[|airlines| - 1].id, airlines[|airlines| - 1].name)]
  }

  // ---------------------------------------------------------------------------
  // Date column, export guard, count line

  /** `formatEventDate`: the date alone for a one-day all-day event, the date
      with both times for a one-day timed event, otherwise both dates. */
  function FormatEventDate(x: ScreenEntry): (r: string)
    ensures |r| >= 10 && r[..10] == DateLabel(x.start.date)
    ensures |r| == 10 <==> DateLabel(x.start.date) == DateLabel(x.end.date) && x.isAllDay
    ensures |r| == 25 <==> DateLabel(x.start.date) == DateLabel(x.end.date) && !x.isAllDay
    ensures |r| == 25 ==> r[10..12] == ", " && r[17..20] == " - "
    ensures |r| == 25 ==> r[12..17] == TimeLabel(x.start) && r[20..] == TimeLabel(x.end)
    ensures |r| == 23 <==> DateLabel(x.start.date) != DateLabel(x.end.date)
    ensures |r| == 23 ==> r[10..13] == " - " && r[13..] == DateLabel(x.end.date)
  {
    var startDate := DateLabel(x.start.date);
    var endDate := DateLabel(x.end.date);
    if startDate == endDate then
      if x.isAllDay then startDate
      else startDate + ", " + TimeLabel(x.start) + " - " + TimeLabel(x.end)
    else startDate + " - " + endDate
  }

  /** For dates with four-digit years the one-day forms are used exactly
      when the event starts and ends on the same calendar date. */
  lemma OneDayFormIffSameDate(x: ScreenEntry)
    requires LabelledYear(x.start.date) && LabelledYear(x.end.date)
    ensures |FormatEventDate(x)| != 23 <==> x.start.date == x.end.date
  {
    DateLabelInjective(x.start.date, x.end.date);
  }

  /** `handleExportPDF`: the airline id requested, or none for the two
      collective choices (the handler shows an alert instead). */
  function PdfRequest(selected: string): (r: Option<AirlineId>)
    ensures r.None? <==> selected == "all" || selected == "none"
    ensures r.Some? ==> r.value == selected
  {
    if selected == "all" || selected == "none" then None else Some(selected)
  }

  /** The export button is enabled for one specific airline with a non-empty list. */
  predicate ExportEnabled(selected: string, entries: seq<ScreenEntry>)
  {
    selected != "all" && selected != "none" && |FilterByAirline(entries, selected)| != 0
  }

  /** The button is enabled iff an airline is chosen and one of the entries
      belongs to it; then the handler does request that airline. */
  lemma ExportEnabledIff(selected: string, entries: seq<ScreenEntry>)
    ensures ExportEnabled(selected, entries)
            <==> selected != "all" && selected != "none"
                 && exists k :: 0 <= k < |entries| && entries[k].airlineId == Some(selected)
    ensures ExportEnabled(selected, entries) ==> PdfRequest(selected) == Some(selected)
  {
    var r := FilterByAirline(entries, selected);
    if selected != "all" && selected != "none" && |r| != 0 {
      assert r[0] in entries && AirlineMatches(selected, r[0]);
    }
    if selected != "all" && selected != "none" && exists k :: 0 <= k < |entries| && entries[k].airlineId == Some(selected) {
      var k :| 0 <= k < |entries| && entries[k].airlineId == Some(selected);
      assert entries[k] in r;
    }
  }

  /** `airlines.find(...)?.name || 'Freistellungen'`. */
  function DownloadTitle(airlines: seq<Airline>, selected: AirlineId): (t: string)
    ensures t != ""
    ensures AirlineById(airlines, selected).Some? && AirlineById(airlines, selected).value.name != "" ==>
              t == AirlineById(airlines, selected).value.name
    ensures !(AirlineById(airlines, selected).Some? && AirlineById(airlines, selected).value.name != "") ==>
              t == "Freistellungen"
  {
    var a := AirlineById(airlines, selected);
    if a.Some? && a.value.name != "" then a.value.name else "Freistellungen"
  }

  /** The downloaded file's name: the title and today's date. */
  function DownloadName(airlines: seq<Airline>, selected: AirlineId, today: Date): (name: string)
    ensures |name| == 30 + |DownloadTitle(airlines, selected)|
    ensures name[..15] == "Freistellungen_"
    ensures name[15..|name| - 15] == DownloadTitle(airlines, selected)
    ensures name[|name| - 15..] == "_" + IsoDate(today) + ".pdf"
  {
    var title := DownloadTitle(airlines, selected);
    var tail := "_" + IsoDate(today) + ".pdf";
    var name := "Freistellungen_" + title + tail;
    assert name[..15] == "Freistellungen_";
    assert name[15..|name| - 15] == title;
    assert name[|name| - 15..] == tail;
    name
  }

  /** `n Freistellung(en)` under the list. */
  function CountLine(n: nat): (s: string)
  {
    DecimalString(n) + " " + ExemptionWord(n)
  }

  /** The count line reads back as the number and the word for it. */
  lemma {:induction false} CountLineReadsBack(n: nat)
    ensures Split(CountLine(n), ' ') == [DecimalString(n), ExemptionWord(n)]
    ensures NumberOf(Split(CountLine(n), ' ')[0]) == Num(n)
  {
    assert ' ' !in DecimalString(n);
    SplitAtFirstSeparator(DecimalString(n), ExemptionWord(n), ' ');
    SplitWithoutSeparator(ExemptionWord(n), ' ');
    DecimalStringRoundTrip(n);
  }
}
