/** The manager's dashboard: today's counts, the late and absent lists, the seven-day trend,
    the CSV export and the page's role guard. */
module ManagerDashboard {
  import opened Seqs
  import opened AttendanceTypes
  import opened JoinedRows
  import Navigation

  // ---------------------------------------------------------------------------
  // Guard

  function RedirectsToAuth(auth: AuthState): bool
  {
    !auth.loading && (auth.user == None || auth.role != Some(Manager))
  }

  function FetchesData(auth: AuthState): bool
  {
    auth.user != None && auth.role == Some(Manager)
  }

  /** The page turns away exactly the settled sessions the landing page would not send to the
      manager page, and it loads data only for sessions it keeps. */
  lemma GuardAgreesWithIndex(auth: AuthState)
    ensures RedirectsToAuth(auth) <==>
              Navigation.IndexTarget(auth) != None && Navigation.IndexTarget(auth) != Some(Navigation.ManagerPage)
    ensures FetchesData(auth) ==> !RedirectsToAuth(auth)
    ensures !auth.loading ==> (FetchesData(auth) <==> !RedirectsToAuth(auth))
  {
  }

  // ---------------------------------------------------------------------------
  // Today's counts

  datatype Stats = Stats(totalEmployees: nat, presentToday: nat, absentToday: int)

  function PresentOrLate(): Attendance -> bool
  {
    (a: Attendance) => a.status == Present || a.status == Late
  }

  lemma {:induction false} PresentOrLateCount(rows: seq<Attendance>)
    ensures |Filter(rows, PresentOrLate())| == CountStatus(rows, Present) + CountStatus(rows, Late)
  {
    if rows != [] {
      PresentOrLateCount(rows[1..]);
    }
  }

  /** `presentToday` counts today's rows marked present or late; everyone else counts as absent. */
  function TodayStats(totalEmployees: Option<nat>, today: Option<seq<JoinedRow>>): (s: Stats)
    ensures s.totalEmployees == (if totalEmployees == None then 0 else totalEmployees.value)
    ensures s.presentToday == CountStatus(Records(OrEmpty(today)), Present) + CountStatus(Records(OrEmpty(today)), Late)
    ensures s.presentToday + s.absentToday == s.totalEmployees
  {
    var total := if totalEmployees == None then 0 else totalEmployees.value;
    var present := |Filter(Records(OrEmpty(today)), PresentOrLate())|;
    PresentOrLateCount(Records(OrEmpty(today)));
    Stats(total, present, total - present)
  }

  // ---------------------------------------------------------------------------
  // Late arrivals

  function RowIsLate(): JoinedRow -> bool
  {
    (r: JoinedRow) => r.record.status == Late
  }

  /** Today's rows marked late, with their profiles normalised. */
  function LateArrivals(today: Option<seq<JoinedRow>>): seq<ListedRow>
  {
    NormaliseRows(Some(Filter(OrEmpty(today), RowIsLate())))
  }

  /** Selecting the late joined rows and then projecting their records is selecting the late
      records. */
  lemma {:induction false} LateRecordsOf(rows: seq<JoinedRow>)
    ensures Records(Filter(rows, RowIsLate())) == Filter(Records(rows), HasStatus(Late))
  {
    if rows != [] {
      var head := if rows[0].record.status == Late then [rows[0]] else [];
      var tail := Filter(rows[1..], RowIsLate());
      assert Filter(rows, RowIsLate()) == head + tail;
      LateRecordsOf(rows[1..]);
      RecordsConcat(head, tail);
      var recs := Records(rows);
      assert recs[1..] == Records(rows[1..]);
      assert Filter(recs, HasStatus(Late)) == Records(head) + Filter(recs[1..], HasStatus(Late));
    }
  }

  /** The late list is exactly today's late records, in the order the store returned them,
      and each carries the profile normalised from its own row. */
  lemma LateArrivalsAreTodaysLateRecords(today: Option<seq<JoinedRow>>)
    ensures var late := Filter(Records(OrEmpty(today)), HasStatus(Late));
            && |LateArrivals(today)| == |late| == CountStatus(Records(OrEmpty(today)), Late)
            && forall i :: 0 <= i < |late| ==> LateArrivals(today)[i].record == late[i]
    ensures forall x :: x in LateArrivals(today) ==> x.record.status == Late
    ensures forall x :: x in LateArrivals(today) ==> exists r :: r in OrEmpty(today) && Listed(r) == x
  {
    var chosen := Filter(OrEmpty(today), RowIsLate());
    LateRecordsOf(OrEmpty(today));
    var listed := LateArrivals(today);
    assert forall i :: 0 <= i < |listed| ==> listed[i] == Listed(chosen[i]);
    assert forall i :: 0 <= i < |listed| ==> listed[i].record == Records(chosen)[i];
    forall x | x in listed ensures x.record.status == Late && exists r :: r in OrEmpty(today) && Listed(r) == x {
      var i :| 0 <= i < |listed| && listed[i] == x;
      assert chosen[i] in chosen;
    }
  }

  // ---------------------------------------------------------------------------
  // Absent employees

  /** `new Set(todayAttendance?.map(a => a.user_id))`. */
  function OwnerIds(today: seq<JoinedRow>): set<UserId>
  {
    set r | r in today :: r.record.userId
  }

  function NotAmong(ids: set<UserId>): Profile -> bool
  {
    (p: Profile) => p.id !in ids
  }

  /** The profiles, in profile order, that own no row today. */
  function AbsentEmployees(today: Option<seq<JoinedRow>>, allProfiles: Option<seq<Profile>>): (r: seq<Profile>)
    ensures forall p :: p in r <==> p in OrEmpty(allProfiles) && forall a :: a in OrEmpty(today) ==> a.record.userId != p.id
  {
    Filter(OrEmpty(allProfiles), NotAmong(OwnerIds(OrEmpty(today))))
  }

  predicate DistinctIds(profiles: seq<Profile>)
  {
    forall i, j :: 0 <= i < j < |profiles| ==> profiles[i].id != profiles[j].id
  }

  predicate OneRowPerUser(today: seq<JoinedRow>)
  {
    forall i, j :: 0 <= i < j < |today| ==> today[i].record.userId != today[j].record.userId
  }

  function ProfileIds(profiles: seq<Profile>): set<UserId>
  {
    set p | p in profiles :: p.id
  }

  lemma {:induction false} OwnerIdsCount(today: seq<JoinedRow>)
    requires OneRowPerUser(today)
    ensures |OwnerIds(today)| == |today|
  {
    if today != [] {
      var tail := today[1..];
      assert OneRowPerUser(tail) by {
        forall i, j | 0 <= i < j < |tail| ensures tail[i].record.userId != tail[j].record.userId {
          assert tail[i] == today[i + 1] && tail[j] == today[j + 1];
        }
      }
      OwnerIdsCount(tail);
      assert OwnerIds(today) == {today[0].record.userId} + OwnerIds(tail) by {
        assert today == [today[0]] + tail;
      }
      assert today[0].record.userId !in OwnerIds(tail) by {
        forall r | r in tail ensures r.record.userId != today[0].record.userId {
          var j :| 0 <= j < |tail| && tail[j] == r;
          assert today[j + 1] == r;
        }
      }
    }
  }

  /** With distinct profile ids, the profiles left out of the filter are those whose id is one of `ids`. */
  lemma {:induction false} NotAmongCount(profiles: seq<Profile>, ids: set<UserId>)
    requires DistinctIds(profiles)
    ensures |Filter(profiles, NotAmong(ids))| == |profiles| - |ids * ProfileIds(profiles)|
  {
    if profiles != [] {
      var tail := profiles[1..];
      assert DistinctIds(tail) by {
        forall i, j | 0 <= i < j < |tail| ensures tail[i].id != tail[j].id {
          assert tail[i] == profiles[i + 1] && tail[j] == profiles[j + 1];
        }
      }
      NotAmongCount(tail, ids);
      var head := profiles[0];
      HeadIdFresh(profiles);
      assert profiles == [head] + tail;
      FilterConcat([head], tail, NotAmong(ids));
      IntersectWithNewElement(ids, head.id, ProfileIds(tail));
    }
  }

  lemma IntersectWithNewElement(ids: set<UserId>, x: UserId, xs: set<UserId>)
    requires x !in xs
    ensures |ids * ({x} + xs)| == (if x in ids then 1 else 0) + |ids * xs|
  {
    if x in ids {
      assert ids * ({x} + xs) == {x} + ids * xs;
    } else {
      assert ids * ({x} + xs) == ids * xs;
    }
  }

  lemma HeadIdFresh(profiles: seq<Profile>)
    requires DistinctIds(profiles) && profiles != []
    ensures ProfileIds(profiles) == {profiles[0].id} + ProfileIds(profiles[1..])
    ensures profiles[0].id !in ProfileIds(profiles[1..])
  {
    var tail := profiles[1..];
    assert profiles == [profiles[0]] + tail;
    forall p | p in tail ensures p.id != profiles[0].id {
      var j :| 0 <= j < |tail| && tail[j] == p;
      assert profiles[j + 1] == p;
    }
  }

  /** The two notions of "absent" disagree by exactly the rows marked half day or absent: such an
      employee is counted in `absentToday` but, owning a row, is not on the absent list. This
      holds when the profile count is the employee count, profile ids are distinct, each
      employee has at most one row today and every row belongs to a profile. */
  lemma AbsentCountVersusAbsentList(today: seq<JoinedRow>, profiles: seq<Profile>)
    requires DistinctIds(profiles) && OneRowPerUser(today)
    requires forall r :: r in today ==> r.record.userId in ProfileIds(profiles)
    ensures TodayStats(Some(|profiles|), Some(today)).absentToday
            == |AbsentEmployees(Some(today), Some(profiles))|
               + CountStatus(Records(today), HalfDay) + CountStatus(Records(today), Absent)
  {
    OwnerIdsCount(today);
    NotAmongCount(profiles, OwnerIds(today));
    assert OwnerIds(today) * ProfileIds(profiles) == OwnerIds(today);
    StatusCountsPartition(Records(today));
  }

  // ---------------------------------------------------------------------------
  // Weekly trend

  /** The seven dates, oldest first: today minus 6 up to today. */
  function TrendDates(today: Day): (ds: seq<Day>)
    ensures |ds| == 7
    ensures forall k :: 0 <= k < 7 ==> ds[k] == today - 6 + k
  {
    var backwards := seq(7, i => today - i);
    ReverseIndex(backwards);
    Reverse(backwards)
  }

  datatype TrendPoint = TrendPoint(date: string, present: nat, late: nat, absent: nat)

  /** `.eq('date', date)` over the table. */
  function DayRows(table: seq<Attendance>, d: Day): (r: seq<Attendance>)
    ensures forall a :: a in r <==> a in table && a.date == d
  {
    Filter(table, (a: Attendance) => a.date == d)
  }

  function Point(table: seq<Attendance>, d: Day, dayLabel: Day -> string): TrendPoint
  {
    var rows := DayRows(table, d);
    TrendPoint(dayLabel(d), CountStatus(rows, Present), CountStatus(rows, Late), CountStatus(rows, Absent))
  }

  /** One point per trend date, each labelled and counted for its own date. */
  function WeeklyTrend(today: Day, table: seq<Attendance>, dayLabel: Day -> string): (pts: seq<TrendPoint>)
    ensures |pts| == 7
    ensures forall k :: 0 <= k < 7 ==> pts[k] == Point(table, today - 6 + k, dayLabel)
  {
    var dates := TrendDates(today);
    seq(7, k requires 0 <= k < 7 => Point(table, dates[k], dayLabel))
  }

  /** A point counts only its own date's rows, and half-day rows are in none of its three lines. */
  lemma TrendPointCounts(table: seq<Attendance>, d: Day, dayLabel: Day -> string)
    ensures Point(table, d, dayLabel).present + Point(table, d, dayLabel).late + Point(table, d, dayLabel).absent
            + CountStatus(DayRows(table, d), HalfDay) == |DayRows(table, d)|
  {
    StatusCountsPartition(DayRows(table, d));
  }

  /** Rows of other dates do not change a point. */
  lemma TrendPointLocal(table: seq<Attendance>, other: seq<Attendance>, d: Day, dayLabel: Day -> string)
    requires forall a :: a in other ==> a.date != d
    ensures Point(table + other, d, dayLabel) == Point(table, d, dayLabel)
  {
    var p := (a: Attendance) => a.date == d;
    FilterConcat(table, other, p);
    FilterNone(other, p);
    assert Filter(table, p) + [] == Filter(table, p);
  }

  // ---------------------------------------------------------------------------
  // CSV export

  const CsvColumns := ["Date", "Employee ID", "Name", "Department", "Status", "Check In", "Check Out", "Total Hours"]
  /** The header line: the column titles joined by commas. */
  const CsvHeader := Join(CsvColumns, ',')

  /** Rendering the library leaves to date-fns and to number printing: the `yyyy-MM-dd` text of a
      day, the `HH:mm` text of an instant, and the text of a number. */
  datatype Formatters = Formatters(day: Day -> string, time: Instant -> string, number: real -> string)

  /** A missing time prints as an empty field. */
  function TimeField(t: Option<Instant>, fmt: Formatters): string
  {
    match t
    case Some(ms) => fmt.time(ms)
    case None => ""
  }

  /** `join` prints a null `total_hours` as an empty field. */
  function HoursField(h: Option<real>, fmt: Formatters): string
  {
    match h
    case Some(x) => fmt.number(x)
    case None => ""
  }

  function CsvFields(a: Attendance, p: Profile, fmt: Formatters): (f: seq<string>)
    ensures |f| == |CsvColumns| == 8
    ensures a.checkInTime == None ==> f[5] == ""
    ensures a.checkOutTime == None ==> f[6] == ""
  {
    [fmt.day(a.date), p.employeeId, p.name, p.department, StatusName(a.status),
     TimeField(a.checkInTime, fmt), TimeField(a.checkOutTime, fmt), HoursField(a.totalHours, fmt)]
  }

  /** The data lines; reading `profile.employee_id` of a row without a profile throws, which
      fails the whole export. */
  function CsvLines(rows: seq<JoinedRow>, fmt: Formatters): (r: Option<seq<string>>)
    ensures r.Some? <==> forall i :: 0 <= i < |rows| ==> NormaliseProfile(rows[i].profiles).Some?
    ensures r.Some? ==> |r.value| == |rows|
    ensures r.Some? ==> forall i :: 0 <= i < |rows| ==>
              r.value[i] == Join(CsvFields(rows[i].record, NormaliseProfile(rows[i].profiles).value, fmt), ',')
  {
    if rows == [] then Some([])
    else
      match NormaliseProfile(rows[0].profiles)
      case None => None
      case Some(p) =>
        match CsvLines(rows[1..], fmt)
        case None => None
        case Some(tail) => Some([Join(CsvFields(rows[0].record, p, fmt), ',')] + tail)
  }

  datatype Export = NoExport | ExportFailed | Exported(csv: string)

  /** `exportToCSV`: nothing without data, a failure when a row lacks its profile, else the text. */
  function ExportCsv(allAttendance: Option<seq<JoinedRow>>, fmt: Formatters): (e: Export)
    ensures e == NoExport <==> allAttendance == None
    ensures allAttendance != None ==>
              (e == ExportFailed <==> exists i :: 0 <= i < |allAttendance.value| && NormaliseProfile(allAttendance.value[i].profiles) == None)
  {
    match allAttendance
    case None => NoExport
    case Some(rows) =>
      match CsvLines(rows, fmt)
      case None => ExportFailed
      case Some(lines) => Exported(Join([CsvHeader] + lines, '\n'))
  }

  /** The header line reads back as the eight column titles, and holds no line break. */
  lemma HeaderText()
    ensures Split(CsvHeader, ',') == CsvColumns && |CsvColumns| == 8
    ensures '\n' !in CsvHeader
  {
    assert forall k :: 0 <= k < |CsvColumns| ==> ',' !in CsvColumns[k] && '\n' !in CsvColumns[k];
    SplitJoin(CsvColumns, ',');
    JoinAvoids(CsvColumns, ',', '\n');
  }

  /** A field is clean when it holds neither a comma nor a line break. */
  predicate Clean(f: string)
  {
    ',' !in f && '\n' !in f
  }

  predicate RowFieldsClean(r: JoinedRow, fmt: Formatters)
  {
    NormaliseProfile(r.profiles).Some? ==>
      forall k :: 0 <= k < 8 ==> Clean(CsvFields(r.record, NormaliseProfile(r.profiles).value, fmt)[k])
  }

  lemma {:induction false} JoinStartsWith(head: string, rest: seq<string>, sep: char)
    ensures |head| <= |Join([head] + rest, sep)|
    ensures Join([head] + rest, sep)[..|head|] == head
    ensures rest == [] ==> Join([head] + rest, sep) == head
  {
    if rest != [] {
      assert ([head] + rest)[1..] == rest;
    }
  }

  /** Whatever the fields hold, the text starts with the header line, and is just the header
      when there are no rows. */
  lemma CsvStartsWithHeader(rows: seq<JoinedRow>, fmt: Formatters)
    requires ExportCsv(Some(rows), fmt).Exported?
    ensures CsvHeader <= ExportCsv(Some(rows), fmt).csv
    ensures rows == [] ==> ExportCsv(Some(rows), fmt).csv == CsvHeader
  {
    var lines := CsvLines(rows, fmt).value;
    JoinStartsWith(CsvHeader, lines, '\n');
  }

  lemma {:induction false} CsvLinesOneLineEach(rows: seq<JoinedRow>, fmt: Formatters)
    requires CsvLines(rows, fmt).Some?
    requires forall i :: 0 <= i < |rows| ==> RowFieldsClean(rows[i], fmt)
    ensures forall k :: 0 <= k < |rows| ==> '\n' !in CsvLines(rows, fmt).value[k]
  {
    var data := CsvLines(rows, fmt).value;
    forall k | 0 <= k < |rows| ensures '\n' !in data[k] {
      var fields := CsvFields(rows[k].record, NormaliseProfile(rows[k].profiles).value, fmt);
      assert data[k] == Join(fields, ',');
      assert forall m :: 0 <= m < |fields| ==> '\n' !in fields[m] by {
        assert RowFieldsClean(rows[k], fmt);
      }
      JoinAvoids(fields, ',', '\n');
    }
  }

  lemma CsvLineFields(rows: seq<JoinedRow>, fmt: Formatters, i: nat)
    requires CsvLines(rows, fmt).Some? && i < |rows|
    requires RowFieldsClean(rows[i], fmt)
    ensures Split(CsvLines(rows, fmt).value[i], ',') == CsvFields(rows[i].record, NormaliseProfile(rows[i].profiles).value, fmt)
  {
    var fields := CsvFields(rows[i].record, NormaliseProfile(rows[i].profiles).value, fmt);
    assert forall m :: 0 <= m < |fields| ==> ',' !in fields[m];
    SplitJoin(fields, ',');
  }

  lemma ExportText(rows: seq<JoinedRow>, fmt: Formatters)
    requires ExportCsv(Some(rows), fmt).Exported?
    ensures CsvLines(rows, fmt).Some?
    ensures ExportCsv(Some(rows), fmt).csv == Join([CsvHeader] + CsvLines(rows, fmt).value, '\n')
  {
  }

  /** When no field holds a comma or a line break, the text splits back into the header line and
      one line per row in order, and each data line into its row's eight fields. */
  lemma CsvStructure(rows: seq<JoinedRow>, fmt: Formatters)
    requires ExportCsv(Some(rows), fmt).Exported?
    requires forall i :: 0 <= i < |rows| ==> RowFieldsClean(rows[i], fmt)
    ensures var lines := Split(ExportCsv(Some(rows), fmt).csv, '\n');
            && |lines| == |rows| + 1
            && lines[0] == CsvHeader
            && forall i :: 0 <= i < |rows| ==>
                 Split(lines[i + 1], ',') == CsvFields(rows[i].record, NormaliseProfile(rows[i].profiles).value, fmt)
                 && |Split(lines[i + 1], ',')| == 8
  {
    ExportText(rows, fmt);
    var data := CsvLines(rows, fmt).value;
    var all := [CsvHeader] + data;
    CsvLinesOneLineEach(rows, fmt);
    HeaderText();
    assert forall k :: 0 <= k < |all| ==> '\n' !in all[k] by {
      forall k | 0 <= k < |all| ensures '\n' !in all[k] {
        if k > 0 { assert all[k] == data[k - 1]; }
      }
    }
    SplitJoin(all, '\n');
    forall i | 0 <= i < |rows|
      ensures Split(all[i + 1], ',') == CsvFields(rows[i].record, NormaliseProfile(rows[i].profiles).value, fmt)
    {
      assert all[i + 1] == data[i];
      CsvLineFields(rows, fmt, i);
    }
  }
}
