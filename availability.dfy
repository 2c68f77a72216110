/**
 * The availability calendar: the list of display items built by `loadData`
 * (all events, then the vacations and then the unavailable days of the
 * selected person, each absence spanning whole days), the colour of each
 * item, and the per-person count of absences that touch the visible range.
 */
module Availability {
  import opened Wrappers
  import opened Text
  import opened Calendar
  import opened Records
  import opened Lists

  /** The record an item was made from (`type` plus `originalData`). */
  datatype Origin = FromEvent(event: Event) | FromVacation(vacation: Vacation) | FromUnavailable(day: UnavailableDay)

  /** One entry handed to the calendar. Absences carry the person's display name. */
  datatype CalendarItem = CalendarItem(
    id: string,
    title: string,
    start: Instant,
    end: Instant,
    origin: Origin,
    userName: Option<string>)

  datatype UserAvailability = UserAvailability(
    profile: Profile,
    vacations: seq<Vacation>,
    unavailableDays: seq<UnavailableDay>)

  /** The person selector: `'all'` or one profile id. */
  predicate Shows(selection: string, userId: UserId)
  {
    selection == "all" || selection == userId
  }

  /** `user?.full_name || 'Unbekannt'` for the first profile with the id. */
  function PersonName(profiles: seq<Profile>, userId: UserId): (name: string)
    ensures name != ""
    ensures ProfileById(profiles, userId).None? ==> name == "Unbekannt"
    ensures ProfileById(profiles, userId).Some? && Truthy(ProfileById(profiles, userId).value.fullName)
            ==> name == ProfileById(profiles, userId).value.fullName.value
    ensures ProfileById(profiles, userId).Some? && !Truthy(ProfileById(profiles, userId).value.fullName)
            ==> name == "Unbekannt"
  {
    var p := ProfileById(profiles, userId);
    if p.Some? then OrElse(p.value.fullName, "Unbekannt") else "Unbekannt"
  }

  /** `: note` when the note is non-empty, nothing otherwise. */
  function NoteSuffix(note: Option<string>): (r: string)
    ensures r == "" <==> !Truthy(note)
    ensures Truthy(note) ==> r == ": " + note.value
  {
    if Truthy(note) then ": " + note.value else ""
  }

  const VacationMark: string := "\U{1F3D6}\U{FE0F} "
  const UnavailableMark: string := "\U{1F6AB} "

  function EventItem(e: Event): CalendarItem
  {
    CalendarItem(e.id, e.title, e.start, e.end, FromEvent(e), None)
  }

  /** A vacation runs from midnight of its first day to midnight after its
      last day (end date + 24 hours). */
  function VacationItem(profiles: seq<Profile>, v: Vacation): CalendarItem
  {
    var name := PersonName(profiles, v.userId);
    CalendarItem("vacation-" + v.id, VacationMark + name + " - Urlaub" + NoteSuffix(v.note),
                 Midnight(v.startDate), Midnight(NextDay(v.endDate)), FromVacation(v), Some(name))
  }

  /** An unavailable day runs from its midnight to the next (date + 24 hours). */
  function DayItem(profiles: seq<Profile>, d: UnavailableDay): CalendarItem
  {
    var name := PersonName(profiles, d.userId);
    CalendarItem("unavailable-" + d.id, UnavailableMark + name + " - F-Tag" + NoteSuffix(d.reason),
                 Midnight(d.date), Midnight(NextDay(d.date)), FromUnavailable(d), Some(name))
  }

  // ---------------------------------------------------------------------------
  // The three blocks of the item list, each in input order

  function EventItems(events: seq<Event>): (items: seq<CalendarItem>)
    decreases |events|
  {
    if events == [] then []
    else EventItems(events[..|events| - 1]) + [EventItem(events[|events| - 1])]
  }

  function VacationItems(selection: string, profiles: seq<Profile>, vacations: seq<Vacation>): seq<CalendarItem>
    decreases |vacations|
  {
    if vacations == [] then []
    else
      var rest := VacationItems(selection, profiles, vacations[..|vacations| - 1]);
      var v := vacations[|vacations| - 1];
      if Shows(selection, v.userId) then rest + [VacationItem(profiles, v)] else rest
  }

  function DayItems(selection: string, profiles: seq<Profile>, days: seq<UnavailableDay>): seq<CalendarItem>
    decreases |days|
  {
    if days == [] then []
    else
      var rest := DayItems(selection, profiles, days[..|days| - 1]);
      var d := days[|days| - 1];
      if Shows(selection, d.userId) then rest + [DayItem(profiles, d)] else rest
  }

  /** `allEvents` as `loadData` leaves it. */
  function MergedItems(selection: string, profiles: seq<Profile>, events: seq<Event>,
                       vacations: seq<Vacation>, days: seq<UnavailableDay>): seq<CalendarItem>
  {
    EventItems(events) + VacationItems(selection, profiles, vacations) + DayItems(selection, profiles, days)
  }

  /** `vacations.filter(v => v.user_id === id)`. */
  function VacationsOf(vacations: seq<Vacation>, id: UserId): (r: seq<Vacation>)
    ensures forall k :: 0 <= k < |r| ==> r[k] in vacations && r[k].userId == id
    ensures forall k :: 0 <= k < |vacations| && vacations[k].userId == id ==> vacations[k] in r
  {
    Filter(vacations, (v: Vacation) => v.userId == id)
  }

  /** `unavailableDays.filter(d => d.user_id === id)`. */
  function DaysOf(days: seq<UnavailableDay>, id: UserId): (r: seq<UnavailableDay>)
    ensures forall k :: 0 <= k < |r| ==> r[k] in days && r[k].userId == id
    ensures forall k :: 0 <= k < |days| && days[k].userId == id ==> days[k] in r
  {
    Filter(days, (d: UnavailableDay) => d.userId == id)
  }

  /** `profiles.map(...)`: each profile with its own vacations and days, in load order. */
  function AvailabilityOf(p: Profile, vacations: seq<Vacation>, days: seq<UnavailableDay>): UserAvailability
  {
    UserAvailability(p, VacationsOf(vacations, p.id), DaysOf(days, p.id))
  }

  /** A person's lists hold exactly their own records. */
  lemma AvailabilityOfExact(p: Profile, vacations: seq<Vacation>, days: seq<UnavailableDay>, v: Vacation, d: UnavailableDay)
    ensures var u := AvailabilityOf(p, vacations, days);
            && u.profile == p
            && (v in u.vacations <==> v in vacations && v.userId == p.id)
            && (d in u.unavailableDays <==> d in days && d.userId == p.id)
  {
    var u := AvailabilityOf(p, vacations, days);
    if v in u.vacations {
      var k :| 0 <= k < |u.vacations| && u.vacations[k] == v;
    }
    if d in u.unavailableDays {
      var k :| 0 <= k < |u.unavailableDays| && u.unavailableDays[k] == d;
    }
    if v in vacations {
      var k :| 0 <= k < |vacations| && vacations[k] == v;
    }
    if d in days {
      var k :| 0 <= k < |days| && days[k] == d;
    }
  }

  function Availabilities(profiles: seq<Profile>, vacations: seq<Vacation>, days: seq<UnavailableDay>)
    : (users: seq<UserAvailability>)
    ensures |users| == |profiles|
    ensures forall k :: 0 <= k < |profiles| ==> users[k] == AvailabilityOf(profiles[k], vacations, days)
    decreases |profiles|
  {
    if profiles == [] then []
    else Availabilities(profiles[..|profiles| - 1], vacations, days)
         + [AvailabilityOf(profiles[|profiles| - 1], vacations, days)]
  }

  /** `loadData`: nothing is updated when the profile query returns null;
      otherwise the per-person lists and the item list are produced. The item
      list is built by appending, block by block, as the handler does. */
  method LoadData(selection: string, profiles: Option<seq<Profile>>, events: Option<seq<Event>>,
                  vacations: Option<seq<Vacation>>, days: Option<seq<UnavailableDay>>)
    returns (r: Option<(seq<UserAvailability>, seq<CalendarItem>)>)
    ensures profiles.None? <==> r.None?
    ensures r.Some? ==>
              r.value.0 == Availabilities(profiles.value, Rows(vacations), Rows(days))
              && r.value.1 == MergedItems(selection, profiles.value, Rows(events), Rows(vacations), Rows(days))
  {
    if profiles.None? {
      return None;
    }
    var people := profiles.value;
    var users := Availabilities(people, Rows(vacations), Rows(days));
    var items := AppendEvents([], Rows(events));
    assert items == EventItems(Rows(events));
    items := AppendVacations(items, selection, people, Rows(vacations));
    items := AppendDays(items, selection, people, Rows(days));
    return Some((users, items));
  }

  /** The first loop of `loadData`: one item per event. */
  method AppendEvents(items: seq<CalendarItem>, es: seq<Event>) returns (r: seq<CalendarItem>)
    ensures r == items + EventItems(es)
  {
    r := items;
    for i := 0 to |es|
      invariant r == items + EventItems(es[..i])
    {
      assert es[..i + 1][..i] == es[..i];
      r := r + [EventItem(es[i])];
    }
    assert es[..|es|] == es;
  }

  /** The second loop: an item per vacation of a shown person. */
  method AppendVacations(items: seq<CalendarItem>, selection: string, people: seq<Profile>, vs: seq<Vacation>)
    returns (r: seq<CalendarItem>)
    ensures r == items + VacationItems(selection, people, vs)
  {
    r := items;
    for i := 0 to |vs|
      invariant r == items + VacationItems(selection, people, vs[..i])
    {
      assert vs[..i + 1][..i] == vs[..i];
      if Shows(selection, vs[i].userId) {
        r := r + [VacationItem(people, vs[i])];
      }
    }
    assert vs[..|vs|] == vs;
  }

  /** The third loop: an item per unavailable day of a shown person. */
  method AppendDays(items: seq<CalendarItem>, selection: string, people: seq<Profile>, ds: seq<UnavailableDay>)
    returns (r: seq<CalendarItem>)
    ensures r == items + DayItems(selection, people, ds)
  {
    r := items;
    for i := 0 to |ds|
      invariant r == items + DayItems(selection, people, ds[..i])
    {
      assert ds[..i + 1][..i] == ds[..i];
      if Shows(selection, ds[i].userId) {
        r := r + [DayItem(people, ds[i])];
      }
    }
    assert ds[..|ds|] == ds;
  }

  // ---------------------------------------------------------------------------
  // What the item list contains

  lemma {:induction false} EventItemsExact(events: seq<Event>)
    ensures |EventItems(events)| == |events|
    ensures forall k :: 0 <= k < |events| ==> EventItems(events)[k] == EventItem(events[k])
    decreases |events|
  {
    if events != [] {
      EventItemsExact(events[..|events| - 1]);
    }
  }

  /** Every vacation item comes from a listed vacation of a shown person and
      is that vacation's item. */
  lemma {:induction false} VacationItemsSound(selection: string, profiles: seq<Profile>, vacations: seq<Vacation>)
    ensures forall k :: 0 <= k < |VacationItems(selection, profiles, vacations)| ==>
              var it := VacationItems(selection, profiles, vacations)[k];
              && it.origin.FromVacation? && it.origin.vacation in vacations
              && Shows(selection, it.origin.vacation.userId)
              && it == VacationItem(profiles, it.origin.vacation)
    decreases |vacations|
  {
    if vacations != [] {
      VacationItemsSound(selection, profiles, vacations[..|vacations| - 1]);
    }
  }

  /** Every listed vacation of a shown person has its item. */
  lemma {:induction false} VacationItemsComplete(selection: string, profiles: seq<Profile>, vacations: seq<Vacation>, v: Vacation)
    requires v in vacations && Shows(selection, v.userId)
    ensures VacationItem(profiles, v) in VacationItems(selection, profiles, vacations)
    decreases |vacations|
  {
    if v != vacations[|vacations| - 1] {
      assert v in vacations[..|vacations| - 1] by {
        var k :| 0 <= k < |vacations| && vacations[k] == v;
        assert vacations[..|vacations| - 1][k] == v;
      }
      VacationItemsComplete(selection, profiles, vacations[..|vacations| - 1], v);
    }
  }

  /** The vacation block of a concatenation is the concatenation of the blocks. */
  lemma {:induction false} VacationItemsConcat(selection: string, profiles: seq<Profile>, a: seq<Vacation>, b: seq<Vacation>)
    ensures VacationItems(selection, profiles, a + b)
            == VacationItems(selection, profiles, a) + VacationItems(selection, profiles, b)
    decreases |b|
  {
    if b == [] {
      assert a + b == a;
    } else {
      assert (a + b)[..|a + b| - 1] == a + b[..|b| - 1];
      VacationItemsConcat(selection, profiles, a, b[..|b| - 1]);
    }
  }

  lemma {:induction false} DayItemsSound(selection: string, profiles: seq<Profile>, days: seq<UnavailableDay>)
    ensures forall k :: 0 <= k < |DayItems(selection, profiles, days)| ==>
              var it := DayItems(selection, profiles, days)[k];
              && it.origin.FromUnavailable? && it.origin.day in days
              && Shows(selection, it.origin.day.userId)
              && it == DayItem(profiles, it.origin.day)
    decreases |days|
  {
    if days != [] {
      DayItemsSound(selection, profiles, days[..|days| - 1]);
    }
  }

  lemma {:induction false} DayItemsComplete(selection: string, profiles: seq<Profile>, days: seq<UnavailableDay>, d: UnavailableDay)
    requires d in days && Shows(selection, d.userId)
    ensures DayItem(profiles, d) in DayItems(selection, profiles, days)
    decreases |days|
  {
    if d != days[|days| - 1] {
      assert d in days[..|days| - 1] by {
        var k :| 0 <= k < |days| && days[k] == d;
        assert days[..|days| - 1][k] == d;
      }
      DayItemsComplete(selection, profiles, days[..|days| - 1], d);
    }
  }

  lemma {:induction false} DayItemsConcat(selection: string, profiles: seq<Profile>, a: seq<UnavailableDay>, b: seq<UnavailableDay>)
    ensures DayItems(selection, profiles, a + b)
            == DayItems(selection, profiles, a) + DayItems(selection, profiles, b)
    decreases |b|
  {
    if b == [] {
      assert a + b == a;
    } else {
      assert (a + b)[..|a + b| - 1] == a + b[..|b| - 1];
      DayItemsConcat(selection, profiles, a, b[..|b| - 1]);
    }
  }

  /** 0 for events, 1 for vacations, 2 for unavailable days. */
  function Block(o: Origin): nat
  {
    match o
    case FromEvent(_) => 0
    case FromVacation(_) => 1
    case FromUnavailable(_) => 2
  }

  /** Three runs of items, each of one block, concatenated in block order. */
  lemma BlocksInOrder(ev: seq<CalendarItem>, va: seq<CalendarItem>, da: seq<CalendarItem>)
    requires forall k :: 0 <= k < |ev| ==> Block(ev[k].origin) == 0
    requires forall k :: 0 <= k < |va| ==> Block(va[k].origin) == 1
    requires forall k :: 0 <= k < |da| ==> Block(da[k].origin) == 2
    ensures forall i, j :: 0 <= i < j < |ev + va + da| ==>
              Block((ev + va + da)[i].origin) <= Block((ev + va + da)[j].origin)
  {
    var m := ev + va + da;
    forall i, j | 0 <= i < j < |m|
      ensures Block(m[i].origin) <= Block(m[j].origin)
    {
      if i < |ev| {
        assert m[i] == ev[i];
      } else if j >= |ev| + |va| {
        assert m[j] == da[j - |ev| - |va|];
      } else {
        assert m[i] == va[i - |ev|] && m[j] == va[j - |ev|];
      }
    }
  }

  /** The merged list holds every event unconditionally and first, in input
      order; then the absences, vacations before unavailable days. */
  lemma MergedLayout(selection: string, profiles: seq<Profile>, events: seq<Event>,
                     vacations: seq<Vacation>, days: seq<UnavailableDay>)
    ensures var m := MergedItems(selection, profiles, events, vacations, days);
            && |events| <= |m|
            && (forall k :: 0 <= k < |events| ==> m[k] == EventItem(events[k]))
            && (forall i, j :: 0 <= i < j < |m| ==> Block(m[i].origin) <= Block(m[j].origin))
  {
    var ev := EventItems(events);
    var va := VacationItems(selection, profiles, vacations);
    var da := DayItems(selection, profiles, days);
    EventItemsExact(events);
    VacationItemsSound(selection, profiles, vacations);
    DayItemsSound(selection, profiles, days);
    BlocksInOrder(ev, va, da);
  }

  /** A vacation gets an item iff the selection shows its person; the same
      for unavailable days. */
  lemma AbsenceShownIff(selection: string, profiles: seq<Profile>, events: seq<Event>,
                        vacations: seq<Vacation>, days: seq<UnavailableDay>, v: Vacation, d: UnavailableDay)
    requires v in vacations && d in days
    ensures VacationItem(profiles, v) in MergedItems(selection, profiles, events, vacations, days)
            <==> Shows(selection, v.userId)
    ensures DayItem(profiles, d) in MergedItems(selection, profiles, events, vacations, days)
            <==> Shows(selection, d.userId)
  {
    var ev := EventItems(events);
    var va := VacationItems(selection, profiles, vacations);
    var da := DayItems(selection, profiles, days);
    EventItemsExact(events);
    VacationItemsSound(selection, profiles, vacations);
    DayItemsSound(selection, profiles, days);
    if Shows(selection, v.userId) {
      VacationItemsComplete(selection, profiles, vacations, v);
    }
    if Shows(selection, d.userId) {
      DayItemsComplete(selection, profiles, days, d);
    }
  }

  /** Item id, title, span and name of a vacation: `vacation-<id>`, titled
      with the beach mark, the person, ` - Urlaub` and the note, from the first
      day's midnight to exactly 24 hours after the last day's midnight. */
  lemma VacationItemFacts(profiles: seq<Profile>, v: Vacation)
    requires ValidDate(v.endDate)
    ensures var it := VacationItem(profiles, v);
            && it.id == "vacation-" + v.id
            && it.title == VacationMark + PersonName(profiles, v.userId) + " - Urlaub" + NoteSuffix(v.note)
            && it.start == Midnight(v.startDate)
            && Time(it.end) == Time(Midnight(v.endDate)) + DayMs
            && it.userName == Some(PersonName(profiles, v.userId))
  {
    NextDayIsOneDayLater(v.endDate, 0);
  }

  /** An unavailable day's item: `unavailable-<id>`, titled with the no-entry
      mark, the person, ` - F-Tag` and the reason, exactly one day long. */
  lemma DayItemFacts(profiles: seq<Profile>, d: UnavailableDay)
    requires ValidDate(d.date)
    ensures var it := DayItem(profiles, d);
            && it.id == "unavailable-" + d.id
            && it.title == UnavailableMark + PersonName(profiles, d.userId) + " - F-Tag" + NoteSuffix(d.reason)
            && it.start == Midnight(d.date)
            && Time(it.end) == Time(it.start) + DayMs
            && it.userName == Some(PersonName(profiles, d.userId))
  {
    NextDayIsOneDayLater(d.date, 0);
  }

  // ---------------------------------------------------------------------------
  // Colours

  const EventBlue: string := "#3b82f6"

  /** `eventStyleGetter`: (background, border). */
  function ItemColours(it: CalendarItem): (r: (string, string))
    ensures it.origin.FromVacation? ==> r == ("#f59e0b", "#d97706")
    ensures it.origin.FromUnavailable? ==> r == ("#ef4444", "#dc2626")
    ensures it.origin.FromEvent? ==> r.0 == OrElse(it.origin.event.color, EventBlue)
    ensures r.0 == r.1 <==> it.origin.FromEvent?
  {
    match it.origin
    case FromVacation(_) => ("#f59e0b", "#d97706")
    case FromUnavailable(_) => ("#ef4444", "#dc2626")
    case FromEvent(e) => var c := OrElse(e.color, EventBlue); (c, c)
  }

  // ---------------------------------------------------------------------------
  // Summary of the visible range

  /** A vacation touches the range `[viewStart, viewEnd]` (milliseconds). */
  predicate VacationTouches(v: Vacation, viewStart: int, viewEnd: int)
  {
    Time(Midnight(v.startDate)) <= viewEnd && Time(Midnight(v.endDate)) >= viewStart
  }

  predicate DayInside(d: UnavailableDay, viewStart: int, viewEnd: int)
  {
    viewStart <= Time(Midnight(d.date)) <= viewEnd
  }

  /** One line of the summary. The two counts are numbers of RECORDS, not of days. */
  datatype SummaryRow = SummaryRow(name: string, vacationDays: nat, unavailableDays: nat, totalUnavailable: nat)

  /** `user.vacations.filter(v => touches the range).length`. */
  function TouchingCount(vacations: seq<Vacation>, viewStart: int, viewEnd: int): nat
    decreases |vacations|
  {
    if vacations == [] then 0
    else (if VacationTouches(vacations[0], viewStart, viewEnd) then 1 else 0) + TouchingCount(vacations[1..], viewStart, viewEnd)
  }

  /** `user.unavailableDays.filter(d => inside the range).length`. */
  function InsideCount(days: seq<UnavailableDay>, viewStart: int, viewEnd: int): nat
    decreases |days|
  {
    if days == [] then 0
    else (if DayInside(days[0], viewStart, viewEnd) then 1 else 0) + InsideCount(days[1..], viewStart, viewEnd)
  }

  lemma {:induction false} TouchingCountPositive(vacations: seq<Vacation>, viewStart: int, viewEnd: int)
    ensures TouchingCount(vacations, viewStart, viewEnd) <= |vacations|
    ensures TouchingCount(vacations, viewStart, viewEnd) > 0
            <==> exists k :: 0 <= k < |vacations| && VacationTouches(vacations[k], viewStart, viewEnd)
    decreases |vacations|
  {
    if vacations != [] {
      TouchingCountPositive(vacations[1..], viewStart, viewEnd);
      if exists k :: 0 <= k < |vacations| && VacationTouches(vacations[k], viewStart, viewEnd) {
        var k :| 0 <= k < |vacations| && VacationTouches(vacations[k], viewStart, viewEnd);
        if k > 0 {
          assert VacationTouches(vacations[1..][k - 1], viewStart, viewEnd);
        }
      }
    }
  }

  lemma {:induction false} InsideCountPositive(days: seq<UnavailableDay>, viewStart: int, viewEnd: int)
    ensures InsideCount(days, viewStart, viewEnd) <= |days|
    ensures InsideCount(days, viewStart, viewEnd) > 0
            <==> exists k :: 0 <= k < |days| && DayInside(days[k], viewStart, viewEnd)
    decreases |days|
  {
    if days != [] {
      InsideCountPositive(days[1..], viewStart, viewEnd);
      if exists k :: 0 <= k < |days| && DayInside(days[k], viewStart, viewEnd) {
        var k :| 0 <= k < |days| && DayInside(days[k], viewStart, viewEnd);
        if k > 0 {
          assert DayInside(days[1..][k - 1], viewStart, viewEnd);
        }
      }
    }
  }

  function SummaryOf(u: UserAvailability, viewStart: int, viewEnd: int): SummaryRow
  {
    var vs := TouchingCount(u.vacations, viewStart, viewEnd);
    var ds := InsideCount(u.unavailableDays, viewStart, viewEnd);
    SummaryRow(OrElse(u.profile.fullName, u.profile.id), vs, ds, vs + ds)
  }

  /** `users.map(...)`: one row per person, in user order. */
  function SummaryRows(users: seq<UserAvailability>, viewStart: int, viewEnd: int): seq<SummaryRow>
    decreases |users|
  {
    if users == [] then []
    else SummaryRows(users[..|users| - 1], viewStart, viewEnd) + [SummaryOf(users[|users| - 1], viewStart, viewEnd)]
  }

  lemma {:induction false} SummaryRowsExact(users: seq<UserAvailability>, viewStart: int, viewEnd: int)
    ensures |SummaryRows(users, viewStart, viewEnd)| == |users|
    ensures forall k :: 0 <= k < |users| ==> SummaryRows(users, viewStart, viewEnd)[k] == SummaryOf(users[k], viewStart, viewEnd)
    decreases |users|
  {
    if users != [] {
      SummaryRowsExact(users[..|users| - 1], viewStart, viewEnd);
    }
  }

  function HasAbsence(row: SummaryRow): bool
  {
    row.totalUnavailable > 0
  }

  /** `getAvailabilitySummary`: the rows with a positive total, in user order. */
  function Summary(users: seq<UserAvailability>, viewStart: int, viewEnd: int): seq<SummaryRow>
  {
    Filter(SummaryRows(users, viewStart, viewEnd), HasAbsence)
  }

  /** A person's total is positive iff one of their vacations touches the
      range or one of their unavailable days lies inside it. */
  lemma TotalPositiveIff(u: UserAvailability, viewStart: int, viewEnd: int)
    ensures SummaryOf(u, viewStart, viewEnd).totalUnavailable > 0
            <==> (exists k :: 0 <= k < |u.vacations| && VacationTouches(u.vacations[k], viewStart, viewEnd))
                 || (exists k :: 0 <= k < |u.unavailableDays| && DayInside(u.unavailableDays[k], viewStart, viewEnd))
  {
    TouchingCountPositive(u.vacations, viewStart, viewEnd);
    InsideCountPositive(u.unavailableDays, viewStart, viewEnd);
  }

  /** Every summary row belongs to a listed person and has a positive total. */
  lemma SummarySound(users: seq<UserAvailability>, viewStart: int, viewEnd: int)
    ensures forall k :: 0 <= k < |Summary(users, viewStart, viewEnd)| ==>
              Summary(users, viewStart, viewEnd)[k].totalUnavailable > 0
              && exists j :: 0 <= j < |users| && Summary(users, viewStart, viewEnd)[k] == SummaryOf(users[j], viewStart, viewEnd)
  {
    var rows := SummaryRows(users, viewStart, viewEnd);
    SummaryRowsExact(users, viewStart, viewEnd);
    var s := Summary(users, viewStart, viewEnd);
    forall k | 0 <= k < |s|
      ensures s[k].totalUnavailable > 0 && exists j :: 0 <= j < |users| && s[k] == SummaryOf(users[j], viewStart, viewEnd)
    {
      assert HasAbsence(s[k]);
      var j :| 0 <= j < |rows| && rows[j] == s[k];
      assert s[k] == SummaryOf(users[j], viewStart, viewEnd);
    }
  }

  /** Every listed person with a positive total has their row in the summary. */
  lemma SummaryComplete(users: seq<UserAvailability>, viewStart: int, viewEnd: int, j: nat)
    requires j < |users| && SummaryOf(users[j], viewStart, viewEnd).totalUnavailable > 0
    ensures SummaryOf(users[j], viewStart, viewEnd) in Summary(users, viewStart, viewEnd)
  {
    var rows := SummaryRows(users, viewStart, viewEnd);
    SummaryRowsExact(users, viewStart, viewEnd);
    assert HasAbsence(rows[j]);
  }
}
