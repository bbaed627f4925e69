/** The records the dashboard reads and writes (profiles, roles, attendance rows),
    and the status vocabulary shared by every page. */
module AttendanceTypes {
  import opened Seqs

  datatype Option<+T> = None | Some(value: T)

  /** Identity-provider user id (also `profiles.id`). */
  type UserId = string
  /** Primary key of an attendance row; the store's default key generator is modelled by a counter. */
  type RecordId = nat
  /** A calendar day in the business time zone, as a day number; its `yyyy-MM-dd` text is a
      one-to-one rendering of it. */
  type Day = int
  /** A point in time as epoch milliseconds (`Date.getTime()`). */
  type Instant = int
  /** A local wall-clock hour, as `Date.getHours()` returns it. */
  type Hour = h: int | 0 <= h < 24

  datatype Role = Employee | Manager

  datatype Profile = Profile(id: UserId, employeeId: string, name: string, department: string)

  datatype AttendanceStatus = Present | Absent | Late | HalfDay

  /** A status as shown on the dashboard: a stored status, or `not-marked` when there is no row. */
  datatype DisplayStatus = Marked(status: AttendanceStatus) | NotMarked

  /** One row of the `attendance` table; `totalHours == None` stands for a NULL column. */
  datatype Attendance = Attendance(
    id: RecordId,
    userId: UserId,
    date: Day,
    checkInTime: Option<Instant>,
    checkOutTime: Option<Instant>,
    status: AttendanceStatus,
    totalHours: Option<real>,
    notes: Option<string>)

  datatype MonthlySummary = MonthlySummary(present: nat, absent: nat, late: nat, halfDay: nat, totalHours: real)

  datatype TodayStatus = TodayStatus(
    status: DisplayStatus,
    checkInTime: Option<Instant>,
    checkOutTime: Option<Instant>,
    totalHours: Option<real>)

  /** What the session store exposes to every page: `loading`, `user` and `role`. */
  datatype AuthState = AuthState(loading: bool, user: Option<UserId>, role: Option<Role>)

  /** The status as stored in the `status` column and printed in the CSV. */
  function StatusName(s: AttendanceStatus): string
  {
    match s
    case Present => "present"
    case Absent => "absent"
    case Late => "late"
    case HalfDay => "half-day"
  }

  lemma StatusNameInjective(s: AttendanceStatus, t: AttendanceStatus)
    ensures StatusName(s) == StatusName(t) <==> s == t
  {
  }

  /** `a.status === st`, as a predicate for `filter`. */
  function HasStatus(st: AttendanceStatus): Attendance -> bool
  {
    (a: Attendance) => a.status == st
  }

  function CountStatus(rows: seq<Attendance>, st: AttendanceStatus): nat
  {
    |Filter(rows, HasStatus(st))|
  }

  /** Every row has exactly one of the four statuses, so the four counts add up to the row count. */
  lemma {:induction false} StatusCountsPartition(rows: seq<Attendance>)
    ensures CountStatus(rows, Present) + CountStatus(rows, Absent)
          + CountStatus(rows, Late) + CountStatus(rows, HalfDay) == |rows|
  {
    if rows != [] {
      StatusCountsPartition(rows[1..]);
    }
  }

  /** The count of a status does not depend on the order of the rows. */
  lemma CountStatusPermutation(a: seq<Attendance>, b: seq<Attendance>, st: AttendanceStatus)
    requires multiset(a) == multiset(b)
    ensures CountStatus(a, st) == CountStatus(b, st)
  {
    FilterPermutation(a, b, HasStatus(st));
    assert |multiset(Filter(a, HasStatus(st)))| == |multiset(Filter(b, HasStatus(st)))|;
  }
}
