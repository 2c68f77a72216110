/**
 * The exemption report (`GET /api/exemptions/pdf`): who may ask for which
 * airline and which answer wins when several things are wrong, the optional
 * `month=YYYY-MM` filter, the rows of the document (name, event, date label)
 * sorted by the label text and then the name, the footer total and the file
 * name. The document is modelled as its ordered rows and texts, not as the
 * PDF layout.
 */
module ExemptionReport {
  import opened Wrappers
  import opened Text
  import opened Calendar
  import opened Records
  import opened Lists
  import opened Sorting
  import opened Gates
  import ExemptionsView

  /** The tables the route reads. */
  datatype Store = Store(profiles: seq<Profile>, events: seq<Event>, attendances: seq<Attendance>, airlines: seq<Airline>)

  datatype Failure = Failure(status: nat, message: string)

  const Unauthenticated := Failure(401, "Nicht authentifiziert")
  const MissingAirline := Failure(400, "Airline ID fehlt")
  const Forbidden := Failure(403, "Keine Berechtigung für diese Airline")
  const UnknownAirline := Failure(404, "Airline nicht gefunden")
  const GenerationFailed := Failure(500, "Fehler bei der PDF-Generierung")
  const NoCandidates := Failure(404, "Keine Freistellungen für diese Airline")
  const NoneInPeriod := Failure(404, "Keine Freistellungen für diesen Zeitraum")

  datatype ReportRow = ReportRow(name: string, eventTitle: string, date: string)

  datatype Report = Report(
    title: string,
    airlineName: string,
    monthLabel: Option<string>,
    created: string,
    rows: seq<ReportRow>,
    footer: string,
    fileName: string)

  datatype Response = Ok(report: Report) | Error(failure: Failure)

  // ---------------------------------------------------------------------------
  // Authorisation

  /** An admin may export every airline, anyone else only their own. A
      missing profile may export nothing. */
  predicate MayExport(viewer: Option<Profile>, airlineId: AirlineId)
  {
    viewer.Some? && (viewer.value.role == Admin || viewer.value.airlineId == Some(airlineId))
  }

  // ---------------------------------------------------------------------------
  // The month parameter

  datatype MonthFilter = MonthFilter(year: nat, month: nat)

  /** `month.split('-').map(Number)` and `if (y && m)`: the filter is set only
      when both of the first two parts are non-zero numbers. */
  function ParseMonth(month: Option<string>): (r: Option<MonthFilter>)
    ensures r.Some? ==> r.value.year >= 1 && r.value.month >= 1
    ensures r.Some? ==> month.Some? && |Split(month.value, '-')| >= 2
                        && NumberOf(Split(month.value, '-')[0]) == Num(r.value.year)
                        && NumberOf(Split(month.value, '-')[1]) == Num(r.value.month)
    ensures !Truthy(month) || |Split(month.value, '-')| < 2 ==> r.None?
  {
    if !Truthy(month) then None
    else
      var parts := Split(month.value, '-');
      var y := NumberOf(parts[0]);
      if |parts| >= 2 && NumberTruthy(y) && NumberTruthy(NumberOf(parts[1])) then
        Some(MonthFilter(y.value, NumberOf(parts[1]).value))
      else None
  }

  /** A well-formed `YYYY-MM` parameter sets the filter to that month. */
  lemma ParseMonthRoundTrip(year: nat, month: nat)
    requires 1 <= year <= 9999 && 1 <= month <= 12
    ensures ParseMonth(Some(Digits(year, 4) + "-" + Digits(month, 2))) == Some(MonthFilter(year, month))
  {
    var ys := Digits(year, 4);
    var ms := Digits(month, 2);
    assert '-' !in ys && '-' !in ms;
    SplitAtFirstSeparator(ys, ms, '-');
    SplitWithoutSeparator(ms, '-');
    assert ys + "-" + ms == ys + ['-'] + ms;
    DigitsRoundTrip(year, 4);
    DigitsRoundTrip(month, 2);
  }

  /** A zero or missing part leaves the filter off: every candidate is kept. */
  lemma ParseMonthNeedsBothParts(year: nat)
    requires year <= 9999
    ensures ParseMonth(Some(Digits(year, 4))) == None
    ensures ParseMonth(Some(Digits(year, 4) + "-00")) == None
  {
    var ys := Digits(year, 4);
    assert '-' !in ys;
    SplitWithoutSeparator(ys, '-');
    SplitAtFirstSeparator(ys, "00", '-');
    SplitWithoutSeparator("00", '-');
    assert ys + "-00" == ys + ['-'] + "00";
  }

  /** The month test inside the loop. */
  predicate InPeriod(filter: Option<MonthFilter>, e: Event)
  {
    filter.None? || (e.start.date.year == filter.value.year && e.start.date.month == filter.value.month)
  }

  // ---------------------------------------------------------------------------
  // Rows

  /** `formatDate(start)`, or `start - end` when the two labels differ; no time part. */
  function ReportDate(e: Event): (r: string)
    ensures |r| >= 10 && r[..10] == DateLabel(e.start.date)
    ensures |r| == 10 <==> DateLabel(e.start.date) == DateLabel(e.end.date)
    ensures |r| != 10 ==> |r| == 23 && r[10..13] == " - " && r[13..] == DateLabel(e.end.date)
  {
    var s := DateLabel(e.start.date);
    var t := DateLabel(e.end.date);
    if s == t then s else s + " - " + t
  }

  /** For four-digit years the single label is used iff the event starts and
      ends on the same date. */
  lemma ReportDateSingleIffSameDate(e: Event)
    requires LabelledYear(e.start.date) && LabelledYear(e.end.date)
    ensures |ReportDate(e)| == 10 <==> e.start.date == e.end.date
  {
    DateLabelInjective(e.start.date, e.end.date);
  }

  /** The query: attendances that ask for an exemption themselves, with an
      attending status, whose person (inner join) belongs to the airline. */
  predicate IsCandidate(profiles: seq<Profile>, airlineId: AirlineId, a: Attendance)
  {
    && a.requiresExemption
    && IsAttending(a.status)
    && ProfileById(profiles, a.userId).Some?
    && ProfileById(profiles, a.userId).value.airlineId == Some(airlineId)
  }

  function Candidates(store: Store, airlineId: AirlineId): seq<Attendance>
  {
    Filter(store.attendances, (a: Attendance) => IsCandidate(store.profiles, airlineId, a))
  }

  function RowOf(p: Profile, e: Event): ReportRow
  {
    ReportRow(OrElse(p.fullName, "Unbekannt"), e.title, ReportDate(e))
  }

  /** The loop over the candidates: rows for those whose event and person are
      found and whose event starts in the filtered month. */
  function ReportRows(store: Store, candidates: seq<Attendance>, filter: Option<MonthFilter>): seq<ReportRow>
    decreases |candidates|
  {
    if candidates == [] then []
    else
      var rest := ReportRows(store, candidates[..|candidates| - 1], filter);
      var a := candidates[|candidates| - 1];
      var e := EventById(store.events, a.eventId);
      var p := ProfileById(store.profiles, a.userId);
      if e.Some? && p.Some? && InPeriod(filter, e.value) then rest + [RowOf(p.value, e.value)] else rest
  }

  lemma {:induction false} ReportRowsSound(store: Store, candidates: seq<Attendance>, filter: Option<MonthFilter>, x: ReportRow)
    requires x in ReportRows(store, candidates, filter)
    ensures exists a :: a in candidates && EventById(store.events, a.eventId).Some? && ProfileById(store.profiles, a.userId).Some?
                        && InPeriod(filter, EventById(store.events, a.eventId).value)
                        && x == RowOf(ProfileById(store.profiles, a.userId).value, EventById(store.events, a.eventId).value)
    decreases |candidates|
  {
    var init := candidates[..|candidates| - 1];
    if x in ReportRows(store, init, filter) {
      ReportRowsSound(store, init, filter, x);
      var b :| b in init && EventById(store.events, b.eventId).Some? && ProfileById(store.profiles, b.userId).Some?
               && InPeriod(filter, EventById(store.events, b.eventId).value)
               && x == RowOf(ProfileById(store.profiles, b.userId).value, EventById(store.events, b.eventId).value);
      assert b in candidates;
    } else {
      assert candidates[|candidates| - 1] in candidates;
    }
  }

  lemma {:induction false} ReportRowsComplete(store: Store, candidates: seq<Attendance>, filter: Option<MonthFilter>, a: Attendance)
    requires a in candidates && EventById(store.events, a.eventId).Some? && ProfileById(store.profiles, a.userId).Some?
    requires InPeriod(filter, EventById(store.events, a.eventId).value)
    ensures RowOf(ProfileById(store.profiles, a.userId).value, EventById(store.events, a.eventId).value)
            in ReportRows(store, candidates, filter)
    decreases |candidates|
  {
    if a != candidates[|candidates| - 1] {
      assert a in candidates[..|candidates| - 1] by {
        var k :| 0 <= k < |candidates| && candidates[k] == a;
        assert candidates[..|candidates| - 1][k] == a;
      }
      ReportRowsComplete(store, candidates[..|candidates| - 1], filter, a);
    }
  }

  /** Conversely, every candidate of the airline whose event is found and
      starts in the requested month (any month when the filter is off) gives
      a row. */
  lemma CandidateInPeriodIsReported(store: Store, airlineId: AirlineId, month: Option<string>, a: Attendance)
    requires a in store.attendances && IsCandidate(store.profiles, airlineId, a)
    requires EventById(store.events, a.eventId).Some?
    requires InPeriod(ParseMonth(month), EventById(store.events, a.eventId).value)
    ensures RowOf(ProfileById(store.profiles, a.userId).value, EventById(store.events, a.eventId).value)
            in ReportRows(store, Candidates(store, airlineId), ParseMonth(month))
  {
    ReportRowsComplete(store, Candidates(store, airlineId), ParseMonth(month), a);
  }

  /** Every row of a month-filtered report comes from an event starting in
      that month. */
  lemma FilteredRowsAreInMonth(store: Store, airlineId: AirlineId, f: MonthFilter, x: ReportRow)
    requires x in ReportRows(store, Candidates(store, airlineId), Some(f))
    ensures exists a, e :: a in store.attendances && IsCandidate(store.profiles, airlineId, a)
                           && e in store.events && e.id == a.eventId
                           && e.start.date.year == f.year && e.start.date.month == f.month
                           && x == RowOf(ProfileById(store.profiles, a.userId).value, e)
  {
    var c := Candidates(store, airlineId);
    ReportRowsSound(store, c, Some(f), x);
    var a :| a in c && EventById(store.events, a.eventId).Some? && ProfileById(store.profiles, a.userId).Some?
             && InPeriod(Some(f), EventById(store.events, a.eventId).value)
             && x == RowOf(ProfileById(store.profiles, a.userId).value, EventById(store.events, a.eventId).value);
    var e := EventById(store.events, a.eventId).value;
    assert e in store.events;
  }

  /** The comparator: by date label text, then by name. */
  predicate RowLeq(a: ReportRow, b: ReportRow)
  {
    if a.date != b.date then LexLeq(a.date, b.date) else LexLeq(a.name, b.name)
  }

  lemma RowLeqIsTotalPreorder()
    ensures TotalPreorder(RowLeq)
  {
    forall x: ReportRow, y: ReportRow
      ensures RowLeq(x, y) || RowLeq(y, x)
    {
      LexLeqTotal(x.date, y.date);
      LexLeqTotal(x.name, y.name);
    }
    forall x: ReportRow, y: ReportRow, z: ReportRow | RowLeq(x, y) && RowLeq(y, z)
      ensures RowLeq(x, z)
    {
      if x.date == y.date == z.date {
        LexLeqTransitive(x.name, y.name, z.name);
      } else if x.date != y.date && y.date != z.date {
        LexLeqTransitive(x.date, y.date, z.date);
        if x.date == z.date {
          LexLeqAntisymmetric(x.date, y.date);
        }
      }
    }
  }

  /** Sorting by the label text is not chronological: 02.02.2024 sorts before
      15.01.2024. */
  lemma LabelOrderIsNotChronological()
    ensures DayNumber(Date(2024, 1, 15)) < DayNumber(Date(2024, 2, 2))
    ensures LexLeq(DateLabel(Date(2024, 2, 2)), DateLabel(Date(2024, 1, 15)))
    ensures !LexLeq(DateLabel(Date(2024, 1, 15)), DateLabel(Date(2024, 2, 2)))
  {
    var early := DateLabel(Date(2024, 1, 15));
    var late := DateLabel(Date(2024, 2, 2));
    assert Digits(0, 1) == "0" && Digits(1, 1) == "1";
    assert late[0] == Digits(2, 2)[0] == '0';
    assert early[0] == Digits(15, 2)[0] == '1';
  }

  // ---------------------------------------------------------------------------
  // Texts of the document

  predicate IsAsciiAlphanumeric(c: char)
  {
    ('a' <= c <= 'z') || ('A' <= c <= 'Z') || ('0' <= c <= '9')
  }

  /** `name.replace(/[^a-zA-Z0-9]/g, '_')`. The pattern works on UTF-16 code
      units, so a character outside the Basic Multilingual Plane becomes `__`. */
  function SanitizeName(s: string): (r: string)
    ensures |r| == Utf16Length(s)
    ensures forall k :: 0 <= k < |r| ==> IsAsciiAlphanumeric(r[k]) || r[k] == '_'
    decreases |s|
  {
    if s == [] then []
    else
      (if IsAsciiAlphanumeric(s[0]) then [s[0]] else if s[0] as int > 0xFFFF then "__" else "_")
      + SanitizeName(s[1..])
  }

  lemma {:induction false} SanitizeNameConcat(a: string, b: string)
    ensures SanitizeName(a + b) == SanitizeName(a) + SanitizeName(b)
    decreases |a|
  {
    if a == [] {
      assert a + b == b;
    } else {
      assert (a + b)[1..] == a[1..] + b;
      SanitizeNameConcat(a[1..], b);
    }
  }

  /** A name made of ASCII letters and digits is kept as it is. */
  lemma {:induction false} SanitizeNameKeepsAlphanumeric(s: string)
    requires forall k :: 0 <= k < |s| ==> IsAsciiAlphanumeric(s[k])
    ensures SanitizeName(s) == s
    decreases |s|
  {
    if s != [] {
      SanitizeNameKeepsAlphanumeric(s[1..]);
      assert [s[0]] + s[1..] == s;
    }
  }

  /** Sanitising twice changes nothing more. */
  lemma {:induction false} SanitizeNameIdempotent(s: string)
    ensures SanitizeName(SanitizeName(s)) == SanitizeName(s)
    decreases |s|
  {
    if s != [] {
      var head := if IsAsciiAlphanumeric(s[0]) then [s[0]] else if s[0] as int > 0xFFFF then "__" else "_";
      SanitizeNameConcat(head, SanitizeName(s[1..]));
      SanitizeNameIdempotent(s[1..]);
      if !IsAsciiAlphanumeric(s[0]) && s[0] as int > 0xFFFF {
        assert head == "_" + "_";
        SanitizeNameConcat("_", "_");
      }
    }
  }

  /** `Content-Disposition`'s file name: the sanitised airline name and the
      month parameter as given, or today's date when it is absent or empty. */
  function FileName(airlineName: string, month: Option<string>, today: Date): (r: string)
    ensures |r| >= 20 + |SanitizeName(airlineName)|
    ensures r[..15] == "Freistellungen_" && r[|r| - 4..] == ".pdf"
    ensures r[15..15 + |SanitizeName(airlineName)|] == SanitizeName(airlineName)
    ensures Truthy(month) ==> r[16 + |SanitizeName(airlineName)|..|r| - 4] == month.value
    ensures !Truthy(month) ==> r[16 + |SanitizeName(airlineName)|..|r| - 4] == IsoDate(today)
  {
    var safe := SanitizeName(airlineName);
    var stamp := if Truthy(month) then month.value else IsoDate(today);
    var r := "Freistellungen_" + safe + ("_" + stamp + ".pdf");
    assert r[..15] == "Freistellungen_";
    assert r[15..15 + |safe|] == safe;
    assert r[16 + |safe|..|r| - 4] == stamp;
    assert r[|r| - 4..] == ".pdf";
    r
  }

  /** `Gesamt: n Freistellung(en)`. */
  function Footer(n: nat): string
  {
    "Gesamt: " + ExemptionsView.CountLine(n)
  }

  lemma FooterReadsBack(n: nat)
    ensures Footer(n)[..8] == "Gesamt: "
    ensures Split(Footer(n)[8..], ' ') == [DecimalString(n), ExemptionWord(n)]
    ensures NumberOf(Split(Footer(n)[8..], ' ')[0]) == Num(n)
  {
    assert Footer(n)[8..] == ExemptionsView.CountLine(n);
    ExemptionsView.CountLineReadsBack(n);
  }

  /** `monthLabel`: only with an active filter, and only for a real month
      (which an active filter always is once a row exists, see
      `MonthOfNonEmptyReport`). */
  function MonthLabelOf(filter: Option<MonthFilter>): (r: Option<string>)
    ensures r.Some? <==> filter.Some? && 1 <= filter.value.month <= 12
  {
    if filter.Some? && 1 <= filter.value.month <= 12 then Some(MonthLabel(filter.value.year, filter.value.month))
    else None
  }

  /** The document for the given rows. */
  function ReportOf(airline: Airline, month: Option<string>, rows: seq<ReportRow>, now: Instant): (r: Report)
    ensures r.rows == rows && r.footer == Footer(|rows|)
    ensures r.airlineName == airline.name
    ensures r.monthLabel.Some? <==> ParseMonth(month).Some? && 1 <= ParseMonth(month).value.month <= 12
    ensures r.fileName == FileName(airline.name, month, now.date)
  {
    var heading := MonthLabelOf(ParseMonth(month));
    Report("Freistellungen - " + airline.name + (if heading.Some? then " - " + heading.value else ""),
           airline.name, heading,
           "Erstellt: " + DateLabel(now.date) + ", " + TimeLabel(now),
           rows, Footer(|rows|), FileName(airline.name, month, now.date))
  }

  // ---------------------------------------------------------------------------
  // The handler

  /** The route's early returns before the attendance query, in order:
      authentication, the `airline_id` parameter, permission, the airline. */
  function AccessChecks(store: Store, user: Option<UserId>, airlineParam: Option<string>): (checks: seq<Check<Failure>>)
    ensures |checks| == 4
  {
    var id := if airlineParam.Some? then airlineParam.value else "";
    var viewer := if user.Some? then ProfileById(store.profiles, user.value) else None;
    [ Check(user.Some?, Unauthenticated),
      Check(Truthy(airlineParam), MissingAirline),
      Check(MayExport(viewer, id), Forbidden),
      Check(AirlineById(store.airlines, id).Some?, UnknownAirline) ]
  }

  /** The early returns after it: a query error (thrown, hence 500), no
      candidates, nothing left after the month filter. */
  function ContentChecks(queryFailed: bool, candidates: seq<Attendance>, rows: seq<ReportRow>)
    : (checks: seq<Check<Failure>>)
    ensures |checks| == 3
  {
    [ Check(!queryFailed, GenerationFailed),
      Check(candidates != [], NoCandidates),
      Check(rows != [], NoneInPeriod) ]
  }

  /** All seven, in the order the handler takes them. */
  function ReportChecks(store: Store, user: Option<UserId>, airlineParam: Option<string>,
                        month: Option<string>, queryFailed: bool): (checks: seq<Check<Failure>>)
    ensures |checks| == 7
  {
    var candidates := Candidates(store, if airlineParam.Some? then airlineParam.value else "");
    AccessChecks(store, user, airlineParam)
    + ContentChecks(queryFailed, candidates, ReportRows(store, candidates, ParseMonth(month)))
  }

  /** `GET`. `user` is the authenticated user (none on an auth error),
      `queryFailed` whether the attendance query reports an error, `now` the
      clock. The answer is the first failing check; otherwise the document
      holds the rows of the reference loop, sorted by `RowLeq`. */
  method Get(store: Store, user: Option<UserId>, airlineParam: Option<string>, month: Option<string>,
             queryFailed: bool, now: Instant) returns (resp: Response)
    ensures resp.Error? <==> FirstFailure(ReportChecks(store, user, airlineParam, month, queryFailed)).Some?
    ensures resp.Error? ==> resp.failure == FirstFailure(ReportChecks(store, user, airlineParam, month, queryFailed)).value
    ensures resp.Ok? ==> airlineParam.Some? && AirlineById(store.airlines, airlineParam.value).Some?
    ensures resp.Ok? && airlineParam.Some? && AirlineById(store.airlines, airlineParam.value).Some? ==>
              var airline := AirlineById(store.airlines, airlineParam.value).value;
              var expected := ReportRows(store, Candidates(store, airlineParam.value), ParseMonth(month));
              && multiset(resp.report.rows) == multiset(expected)
              && SortedBy(resp.report.rows, RowLeq)
              && resp.report == ReportOf(airline, month, resp.report.rows, now)
  {
    ghost var access := AccessChecks(store, user, airlineParam);
    ghost var id0 := if airlineParam.Some? then airlineParam.value else "";
    ghost var candidates0 := Candidates(store, id0);
    FirstFailureConcat(access, ContentChecks(queryFailed, candidates0, ReportRows(store, candidates0, ParseMonth(month))));
    if user.None? {
      FirstFailureAt(access, 0);
      return Error(Unauthenticated);
    }
    var viewer := ProfileById(store.profiles, user.value);
    if !Truthy(airlineParam) {
      FirstFailureAt(access, 1);
      return Error(MissingAirline);
    }
    var id := airlineParam.value;
    if !MayExport(viewer, id) {
      FirstFailureAt(access, 2);
      return Error(Forbidden);
    }
    var airline := AirlineById(store.airlines, id);
    if airline.None? {
      FirstFailureAt(access, 3);
      return Error(UnknownAirline);
    }
    assert FirstFailure(access).None?;
    var candidates := Candidates(store, id);
    resp := Produce(store, candidates, airline.value, month, queryFailed, now);
  }

  /** The part of `GET` after the airline is loaded, given the query's rows. */
  method Produce(store: Store, candidates: seq<Attendance>, airline: Airline, month: Option<string>,
                 queryFailed: bool, now: Instant)
    returns (resp: Response)
    ensures resp.Error? <==> FirstFailure(ContentChecks(queryFailed, candidates, ReportRows(store, candidates, ParseMonth(month)))).Some?
    ensures resp.Error? ==> resp.failure == FirstFailure(ContentChecks(queryFailed, candidates, ReportRows(store, candidates, ParseMonth(month)))).value
    ensures resp.Ok? ==>
              && multiset(resp.report.rows) == multiset(ReportRows(store, candidates, ParseMonth(month)))
              && SortedBy(resp.report.rows, RowLeq)
              && resp.report == ReportOf(airline, month, resp.report.rows, now)
  {
    if queryFailed {
      return Error(GenerationFailed);
    }
    if |candidates| == 0 {
      return Error(NoCandidates);
    }
    var filter := ParseMonth(month);
    var rows := BuildRows(store, candidates, filter);
    var sorted := SortRows(rows);
    if |sorted| == 0 {
      FirstFailureAt(ContentChecks(queryFailed, candidates, rows), 2);
      return Error(NoneInPeriod);
    }
    assert rows != [];
    resp := Ok(ReportOf(airline, month, sorted, now));
  }

  /** The `for ... continue` loop that fills `exemptions`. */
  method BuildRows(store: Store, candidates: seq<Attendance>, filter: Option<MonthFilter>)
    returns (rows: seq<ReportRow>)
    ensures rows == ReportRows(store, candidates, filter)
  {
    rows := [];
    for i := 0 to |candidates|
      invariant rows == ReportRows(store, candidates[..i], filter)
    {
      assert candidates[..i + 1][..i] == candidates[..i];
      var e := EventById(store.events, candidates[i].eventId);
      var p := ProfileById(store.profiles, candidates[i].userId);
      if e.None? || p.None? {
        continue;
      }
      if !InPeriod(filter, e.value) {
        continue;
      }
      rows := rows + [RowOf(p.value, e.value)];
    }
    assert candidates[..|candidates|] == candidates;
  }

  /** `exemptions.sort(...)` by label text, then name. */
  method SortRows(rows: seq<ReportRow>) returns (sorted: seq<ReportRow>)
    ensures multiset(sorted) == multiset(rows)
    ensures SortedBy(sorted, RowLeq)
  {
    var a := new ReportRow[|rows|](k requires 0 <= k < |rows| => rows[k]);
    assert a[..] == rows;
    RowLeqIsTotalPreorder();
    InsertionSort(a, RowLeq);
    sorted := a[..];
  }

  // ---------------------------------------------------------------------------
  // Consequences

  /** An unauthenticated caller gets 401 whatever else is wrong; an
      authenticated one without `airline_id` gets 400 before any permission
      check. */
  lemma EarlyFailures(store: Store, user: Option<UserId>, airlineParam: Option<string>, month: Option<string>, queryFailed: bool)
    ensures user.None? ==> FirstFailure(ReportChecks(store, user, airlineParam, month, queryFailed)) == Some(Unauthenticated)
    ensures user.Some? && !Truthy(airlineParam) ==>
              FirstFailure(ReportChecks(store, user, airlineParam, month, queryFailed)) == Some(MissingAirline)
  {
  }

  /** When a month filter is on and the report is not refused, the filter
      names a real month, so the month label exists. */
  lemma MonthOfNonEmptyReport(store: Store, airlineId: AirlineId, month: Option<string>)
    requires forall e :: e in store.events ==> ValidDate(e.start.date)
    requires ParseMonth(month).Some? && ReportRows(store, Candidates(store, airlineId), ParseMonth(month)) != []
    ensures 1 <= ParseMonth(month).value.month <= 12
    ensures MonthLabelOf(ParseMonth(month)).Some?
  {
    var rows := ReportRows(store, Candidates(store, airlineId), ParseMonth(month));
    FilteredRowsAreInMonth(store, airlineId, ParseMonth(month).value, rows[0]);
  }

  /** The screen and the report select differently: an attending row whose own
      flag is off, on an event that asks for an exemption, is listed on the
      screen but never reaches the report. */
  lemma ScreenListsWhatReportOmits(store: Store, airlineId: AirlineId, a: Attendance)
    requires a in store.attendances && IsAttending(a.status) && !a.requiresExemption
    requires EventById(ExemptionsView.ExemptingEvents(store.events), a.eventId).Some?
    requires ProfileById(store.profiles, a.userId).Some?
    ensures ExemptionsView.EntryOf(a, EventById(ExemptionsView.ExemptingEvents(store.events), a.eventId).value,
                                   ProfileById(store.profiles, a.userId).value, store.airlines)
            in ExemptionsView.ScreenCandidates(store.events, store.attendances, store.profiles, store.airlines)
    ensures a !in Candidates(store, airlineId)
  {
    ExemptionsView.ScreenEntryPresent(store.events, store.attendances, store.profiles, store.airlines, a);
  }
}
