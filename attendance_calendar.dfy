/** The employee's month calendar: the date lookup, the per-status day markers, the legend
    colours and the selected day. */
module AttendanceCalendar {
  import opened Seqs
  import opened AttendanceTypes

  /** `new Map(attendance.map(a => [a.date, a]))`: entries are inserted in order, so a later
      record with the same date replaces an earlier one. */
  function AttendanceMap(records: seq<Attendance>): (m: map<Day, Attendance>)
    ensures m.Keys == set i | 0 <= i < |records| :: records[i].date
    ensures forall d :: d in m ==> m[d].date == d && m[d] in records
  {
    if records == [] then map[]
    else
      var init := records[..|records| - 1];
      var last := records[|records| - 1];
      var m := AttendanceMap(init);
      assert records == init + [last];
      assert forall a :: a in init ==> a in records;
      m[last.date := last]
  }

  /** The map binds each date to the last record with that date. */
  lemma {:induction false} LastWithDate(records: seq<Attendance>, d: Day) returns (i: nat)
    requires d in AttendanceMap(records)
    ensures i < |records| && AttendanceMap(records)[d] == records[i]
    ensures forall j :: i < j < |records| ==> records[j].date != d
  {
    var n := |records|;
    var init := records[..n - 1];
    var last := records[n - 1];
    var m := AttendanceMap(records);
    assert m == AttendanceMap(init)[last.date := last];
    if last.date == d {
      i := n - 1;
    } else {
      assert d in AttendanceMap(init) && m[d] == AttendanceMap(init)[d];
      var k := LastWithDate(init, d);
      forall j | k < j < n ensures records[j].date != d {
        if j < n - 1 {
          assert records[j] == init[j];
        }
      }
      i := k;
    }
  }

  /** The dates of the given records, in order (`map(a => parseISO(a.date))`). */
  function Dates(records: seq<Attendance>): (ds: seq<Day>)
    ensures |ds| == |records| && forall i :: 0 <= i < |records| ==> ds[i] == records[i].date
  {
    seq(|records|, i requires 0 <= i < |records| => records[i].date)
  }

  lemma DatesConcat(a: seq<Attendance>, b: seq<Attendance>)
    ensures Dates(a + b) == Dates(a) + Dates(b)
  {
  }

  /** The day markers, one list per status. */
  datatype Modifiers = Modifiers(present: seq<Day>, absent: seq<Day>, late: seq<Day>, halfDay: seq<Day>)

  function Marked(records: seq<Attendance>, st: AttendanceStatus): seq<Day>
  {
    Dates(Filter(records, HasStatus(st)))
  }

  function ModifiersOf(records: seq<Attendance>): Modifiers
  {
    Modifiers(Marked(records, Present), Marked(records, Absent), Marked(records, Late), Marked(records, HalfDay))
  }

  /** A day carries a status marker exactly when some record of that day has that status. */
  lemma MarkedDays(records: seq<Attendance>, st: AttendanceStatus, d: Day)
    ensures d in Marked(records, st) <==> exists i :: 0 <= i < |records| && records[i].status == st && records[i].date == d
  {
    var f := Filter(records, HasStatus(st));
    if d in Marked(records, st) {
      var k :| 0 <= k < |f| && Marked(records, st)[k] == d;
      assert f[k] in records;
    }
    if exists i :: 0 <= i < |records| && records[i].status == st && records[i].date == d {
      var i :| 0 <= i < |records| && records[i].status == st && records[i].date == d;
      assert records[i] in f;
      var k :| 0 <= k < |f| && f[k] == records[i];
      assert Marked(records, st)[k] == d;
    }
  }

  /** Every record contributes exactly one marker. */
  lemma ModifierCounts(records: seq<Attendance>)
    ensures var m := ModifiersOf(records);
            |m.present| + |m.absent| + |m.late| + |m.halfDay| == |records|
  {
    StatusCountsPartition(records);
  }

  /** The marker lists keep the input order: the markers of a concatenation are the markers of
      its parts, one after the other. */
  lemma MarkedConcat(a: seq<Attendance>, b: seq<Attendance>, st: AttendanceStatus)
    ensures Marked(a + b, st) == Marked(a, st) + Marked(b, st)
  {
    FilterConcat(a, b, HasStatus(st));
    DatesConcat(Filter(a, HasStatus(st)), Filter(b, HasStatus(st)));
  }

  /** `getStatusColor`. */
  function StatusColor(s: AttendanceStatus): string
  {
    match s
    case Present => "bg-success"
    case Absent => "bg-destructive"
    case Late => "bg-late"
    case HalfDay => "bg-half-day"
  }

  /** The four statuses have four different colours. */
  lemma StatusColorsDistinct(s: AttendanceStatus, t: AttendanceStatus)
    requires s != t
    ensures StatusColor(s) != StatusColor(t)
  {
    assert |StatusColor(Present)| == 10;
    assert |StatusColor(Absent)| == 14;
    assert |StatusColor(Late)| == 7;
    assert |StatusColor(HalfDay)| == 11;
  }

  /** The selected day and the record shown for it. */
  class CalendarState {
    var selectedDate: Option<Day>
    var selectedAttendance: Option<Attendance>

    /** The calendar opens on today with no record shown. */
    constructor (today: Day)
      ensures selectedDate == Some(today) && selectedAttendance == None
    {
      selectedDate := Some(today);
      selectedAttendance := None;
    }

    /** `handleDateSelect`: a cleared selection changes nothing; a chosen day becomes the
        selection and shows the last record of that day, or none. */
    method HandleDateSelect(date: Option<Day>, records: seq<Attendance>)
      modifies this
      ensures date == None ==> selectedDate == old(selectedDate) && selectedAttendance == old(selectedAttendance)
      ensures date != None ==> selectedDate == date
      ensures date != None ==>
                (selectedAttendance == None <==> forall i :: 0 <= i < |records| ==> records[i].date != date.value)
      ensures date != None && selectedAttendance != None ==>
                exists i :: 0 <= i < |records| && selectedAttendance.value == records[i] && records[i].date == date.value
                  && forall j :: i < j < |records| ==> records[j].date != date.value
    {
      if date == None {
        return;
      }
      selectedDate := date;
      var m := AttendanceMap(records);
      var d := date.value;
      if d in m {
        selectedAttendance := Some(m[d]);
        var i := LastWithDate(records, d);
      } else {
        selectedAttendance := None;
      }
    }
  }
}
