/**
 * The attendance part of the event dialog: the caller's own row in
 * `event_attendances` (at most one per event and user, so the store is a map
 * keyed by the pair), the dialog's local copy of it (`myAttendance`,
 * `myRequiresExemption`), and the three handlers that change them: declaring a
 * status, withdrawing, and ticking the exemption box. Also the all-day
 * normalisation the dialog applies when it saves an event.
 */
module AttendancePanel {
  import opened Wrappers
  import opened Text
  import opened Calendar
  import opened Records

  /** The columns of an attendance row the dialog reads and writes. */
  datatype Mark = Mark(status: AttendanceStatus, requiresExemption: bool)

  /** The argument of `handleAttendanceChange`: a status, or `'remove'`. */
  datatype Choice = Declare(status: AttendanceStatus) | Remove

  class Panel {
    /** The `event_attendances` rows, by (event id, user id). */
    var store: map<(EventId, UserId), Mark>
    /** `event?.id`: absent, or empty, for an event that is not saved yet. */
    const eventId: Option<EventId>
    var currentUser: Option<UserId>
    var myAttendance: Option<AttendanceStatus>
    var myRequiresExemption: bool

    /** The handlers do something only for a saved event and a signed-in user. */
    predicate Active()
      reads this
    {
      Truthy(eventId) && currentUser.Some?
    }

    function Key(): (EventId, UserId)
      reads this
      requires Active()
    {
      (eventId.value, currentUser.value)
    }

    /** The local view mirrors the caller's own row: a status is shown iff the
        row exists, and then it shows the row's status and flag. */
    ghost predicate Synced()
      reads this
    {
      Active() ==>
        && (myAttendance.Some? <==> Key() in store)
        && (myAttendance.Some? ==> store[Key()] == Mark(myAttendance.value, myRequiresExemption))
    }

    /** The section "Meine Teilnahme" is shown only for a saved event. */
    predicate AttendanceSectionShown()
      reads this
    {
      Truthy(eventId)
    }

    /** "Zurückziehen" is offered only while a status is set. */
    predicate WithdrawOffered()
      reads this
    {
      myAttendance.Some?
    }

    /** The exemption box is offered only while a status other than absent is set. */
    predicate ExemptionOffered()
      reads this
    {
      myAttendance.Some? && myAttendance.value != Absent
    }

    /** Opening the dialog: `getCurrentUser` records the user and, for a saved
        event, loads the caller's row into the local state. */
    constructor (rows: map<(EventId, UserId), Mark>, event: Option<EventId>, user: Option<UserId>)
      ensures store == rows && eventId == event && currentUser == user
      ensures Active() && Key() in rows ==>
                myAttendance == Some(rows[Key()].status) && myRequiresExemption == rows[Key()].requiresExemption
      ensures !(Active() && Key() in rows) ==> myAttendance == None && !myRequiresExemption
      ensures Synced()
    {
      store := rows;
      eventId := event;
      currentUser := user;
      myAttendance := None;
      myRequiresExemption := false;
      if Truthy(event) && user.Some? && (event.value, user.value) in rows {
        var row := rows[(event.value, user.value)];
        myAttendance := Some(row.status);
        myRequiresExemption := row.requiresExemption;
      }
    }

    /** `handleAttendanceChange`. Withdrawing deletes the caller's row and clears
        the local state; declaring updates the existing row, or inserts one,
        with the chosen status and the CURRENT local flag (also for `absent`). */
    method ChangeAttendance(choice: Choice)
      modifies this
      ensures currentUser == old(currentUser)
      ensures !old(Active()) ==>
                store == old(store) && myAttendance == old(myAttendance)
                && myRequiresExemption == old(myRequiresExemption)
      ensures old(Active()) && choice.Remove? ==>
                store == old(store) - {Key()} && myAttendance == None && !myRequiresExemption
      ensures old(Active()) && choice.Declare? ==>
                && store == old(store)[Key() := Mark(choice.status, old(myRequiresExemption))]
                && myAttendance == Some(choice.status)
                && myRequiresExemption == old(myRequiresExemption)
      ensures old(Active()) && choice.Declare? && Key() !in old(store) ==> |store| == |old(store)| + 1
      ensures old(Active()) && choice.Declare? && Key() in old(store) ==> |store| == |old(store)|
      ensures forall k :: k in old(store) && !(old(Active()) && k == Key()) ==> k in store && store[k] == old(store)[k]
      ensures forall k :: k in store && !(old(Active()) && k == Key()) ==> k in old(store)
      ensures old(Synced()) ==> Synced()
    {
      if !Active() {
        return;
      }
      var key := (eventId.value, currentUser.value);
      match choice {
        case Remove =>
          store := store - {key};
          myAttendance := None;
          myRequiresExemption := false;
        case Declare(status) =>
          if key in store {
            store := store[key := Mark(status, myRequiresExemption)];
          } else {
            store := store[key := Mark(status, myRequiresExemption)];
          }
          myAttendance := Some(status);
      }
    }

    /** `handleExemptionChange`. The local flag always follows the box; the
        caller's row is updated only when a status is set locally (and is left
        alone when the row has gone meanwhile). Runs whichever status is set:
        it is the box's visibility that keeps it away from `absent`. */
    method ChangeExemption(checked: bool)
      modifies this
      ensures currentUser == old(currentUser) && myAttendance == old(myAttendance)
      ensures myRequiresExemption == checked
      ensures old(Active()) && old(myAttendance).Some? && Key() in old(store) ==>
                store == old(store)[Key() := old(store)[Key()].(requiresExemption := checked)]
      ensures !(old(Active()) && old(myAttendance).Some? && Key() in old(store)) ==> store == old(store)
      ensures old(Synced()) ==> Synced()
    {
      myRequiresExemption := checked;
      if !Active() || myAttendance.None? {
        return;
      }
      var key := (eventId.value, currentUser.value);
      if key in store {
        store := store[key := store[key].(requiresExemption := checked)];
      }
    }
  }

  /** While the exemption box is on screen, the caller's row exists, is an
      attending row and carries the flag the box shows. */
  lemma OfferedExemptionIsStored(p: Panel)
    requires p.Synced() && p.Active() && p.ExemptionOffered()
    ensures p.Key() in p.store
    ensures IsAttending(p.store[p.Key()].status)
    ensures p.store[p.Key()].requiresExemption == p.myRequiresExemption
  {
  }

  /** `handleSubmit`'s start and end instants. An all-day event runs from
      00:00:00 of its start date to 23:59:59 of its end date; otherwise the
      chosen `HH:mm` times (given here in minutes after midnight) are used.
      Nothing checks that the end is after the start. */
  function SaveBounds(isAllDay: bool, startDate: Date, startMinute: nat, endDate: Date, endMinute: nat)
    : (r: (Instant, Instant))
    ensures r.0.date == startDate && r.1.date == endDate
    ensures isAllDay ==> r.0 == Midnight(startDate) && r.1.ms == DayMs - SecondMs
    ensures !isAllDay ==> r.0.ms == startMinute * MinuteMs && r.1.ms == endMinute * MinuteMs
  {
    if isAllDay then
      (Midnight(startDate), Instant(endDate, DayMs - SecondMs))
    else
      (Instant(startDate, startMinute * MinuteMs), Instant(endDate, endMinute * MinuteMs))
  }

  /** An all-day event saved this way ends exactly one second before the
      midnight that follows its end date. */
  lemma AllDayEndsOneSecondBeforeNextMidnight(startDate: Date, startMinute: nat, endDate: Date, endMinute: nat)
    requires ValidDate(endDate)
    ensures Time(SaveBounds(true, startDate, startMinute, endDate, endMinute).1)
            == Time(Midnight(NextDay(endDate))) - SecondMs
  {
    NextDayIsOneDayLater(endDate, 0);
  }
}
