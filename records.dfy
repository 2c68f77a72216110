/**
 * The rows of the store (`profiles`, `events`, `vacations`, `unavailable_days`,
 * `event_attendances`, `airlines`) as the core reads them, including the columns
 * the code queries beyond the generated types: `airline_id` on profiles,
 * `requires_exemption` on attendances and on events, and the `airlines` table.
 * Timestamps are `Calendar.Instant`s; date-only columns are `Calendar.Date`s.
 */
module Records {
  import opened Wrappers
  import opened Calendar

  type UserId = string
  type EventId = string
  type AirlineId = string

  datatype Role = Normal | Moderator | Admin

  datatype AttendanceStatus = AttendingOnsite | AttendingHybrid | Absent

  datatype Profile = Profile(id: UserId, role: Role, fullName: Option<string>, airlineId: Option<AirlineId>)

  datatype Event = Event(
    id: EventId,
    title: string,
    description: Option<string>,
    start: Instant,
    end: Instant,
    location: Option<string>,
    color: Option<string>,
    isAllDay: bool,
    createdBy: UserId,
    requiresExemption: bool)

  datatype Vacation = Vacation(id: string, userId: UserId, startDate: Date, endDate: Date, note: Option<string>)

  datatype UnavailableDay = UnavailableDay(id: string, userId: UserId, date: Date, reason: Option<string>)

  datatype Attendance = Attendance(
    id: string,
    eventId: EventId,
    userId: UserId,
    status: AttendanceStatus,
    requiresExemption: bool)

  datatype Airline = Airline(id: AirlineId, name: string)

  /** A query result that may be `null`; a null list contributes no rows. */
  function Rows<T>(data: Option<seq<T>>): seq<T>
  {
    if data.Some? then data.value else []
  }

  /** The statuses that count as taking part (`attending_onsite`, `attending_hybrid`). */
  predicate IsAttending(s: AttendanceStatus)
  {
    s == AttendingOnsite || s == AttendingHybrid
  }

  /** `Array.prototype.find`: the first element that matches. */
  function FindFirst<T>(s: seq<T>, matches: T -> bool): (r: Option<T>)
    ensures r.None? <==> forall k :: 0 <= k < |s| ==> !matches(s[k])
    ensures r.Some? ==> exists k :: 0 <= k < |s| && s[k] == r.value && matches(s[k])
                                   && forall j :: 0 <= j < k ==> !matches(s[j])
    decreases |s|
  {
    if s == [] then None
    else if matches(s[0]) then Some(s[0])
    else
      var r := FindFirst(s[1..], matches);
      assert r.Some? ==> exists k :: 1 <= k < |s| && s[k] == r.value && matches(s[k])
                                     && forall j :: 0 <= j < k ==> !matches(s[j]);
      r
  }

  /** `new Map(pairs).get(key)`: the last element that matches, since later
      pairs overwrite earlier ones. */
  function FindLast<T>(s: seq<T>, matches: T -> bool): (r: Option<T>)
    ensures r.None? <==> forall k :: 0 <= k < |s| ==> !matches(s[k])
    ensures r.Some? ==> exists k :: 0 <= k < |s| && s[k] == r.value && matches(s[k])
                                   && forall j :: k < j < |s| ==> !matches(s[j])
    decreases |s|
  {
    if s == [] then None
    else
      var r := FindLast(s[1..], matches);
      assert r.Some? ==> exists k :: 1 <= k < |s| && s[k] == r.value && matches(s[k])
                                     && forall j :: k < j < |s| ==> !matches(s[j]);
      if r.Some? then r
      else if matches(s[0]) then Some(s[0])
      else None
  }

  function ProfileById(profiles: seq<Profile>, id: UserId): Option<Profile>
  {
    FindFirst(profiles, (p: Profile) => p.id == id)
  }

  function EventById(events: seq<Event>, id: EventId): Option<Event>
  {
    FindFirst(events, (e: Event) => e.id == id)
  }

  function AirlineById(airlines: seq<Airline>, id: AirlineId): Option<Airline>
  {
    FindFirst(airlines, (a: Airline) => a.id == id)
  }

  /** `Freistellung` for exactly one, `Freistellungen` otherwise (the screen's
      count line and the report's footer). */
  function ExemptionWord(n: nat): (w: string)
    ensures n == 1 ==> w == "Freistellung"
    ensures n != 1 ==> w == "Freistellungen"
  {
    "Freistellung" + (if n != 1 then "en" else "")
  }
}
