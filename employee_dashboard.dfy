/** The employee's dashboard: check-in and check-out against the attendance store,
    the today card with its two buttons, and the monthly summary. */
module EmployeeDashboard {
  import opened Seqs
  import opened AttendanceTypes
  import Navigation

  /** A check-in after this local hour is late; 9:00 to 9:59 still counts as on time. */
  const LateAfterHour := 9
  const MsPerHour := 3_600_000
  /** A session shorter than four hours is a half day. */
  const HalfDayMs := 4 * MsPerHour

  /** One reading of the clock (`new Date()`): the instant, and its local day and hour. */
  datatype Clock = Clock(ms: Instant, day: Day, hour: Hour)

  // ---------------------------------------------------------------------------
  // Status rules

  function CheckInStatus(hour: Hour): (s: AttendanceStatus)
    ensures s == Late <==> hour > 9
    ensures s == Present <==> hour <= 9
  {
    if hour > LateAfterHour then Late else Present
  }

  /** The cutoff falls between 9:59 and 10:00. */
  lemma CheckInCutoff()
    ensures CheckInStatus(9) == Present
    ensures CheckInStatus(10) == Late
  {
  }

  /** `(checkOut - checkIn) / (1000 * 60 * 60)`, computed exactly. */
  function ElapsedHours(checkIn: Instant, checkOut: Instant): real
  {
    (checkOut - checkIn) as real / MsPerHour as real
  }

  /** `hours < 4` on the real-valued hours is the same test as fewer than 14,400,000 ms. */
  lemma HalfDayThreshold(checkIn: Instant, checkOut: Instant)
    ensures ElapsedHours(checkIn, checkOut) < 4.0 <==> checkOut - checkIn < HalfDayMs
  {
    var d := (checkOut - checkIn) as real;
    assert ElapsedHours(checkIn, checkOut) * 3600000.0 == d;
  }

  /** The status a check-out writes: half day below four hours, else the status set at check-in. */
  function CheckOutStatus(stored: AttendanceStatus, checkIn: Instant, checkOut: Instant): (s: AttendanceStatus)
    ensures checkOut - checkIn < HalfDayMs ==> s == HalfDay
    ensures checkOut - checkIn >= HalfDayMs ==> s == stored
  {
    HalfDayThreshold(checkIn, checkOut);
    if ElapsedHours(checkIn, checkOut) < 4.0 then HalfDay else stored
  }

  /** Two sessions described in terms of the clock: 08:30 to 17:30, and 09:15 to 12:00
      (`start` is the instant of local midnight). */
  lemma SessionScenarios(start: Instant)
    ensures CheckInStatus(8) == Present
    ensures ElapsedHours(start + 30_600_000, start + 63_000_000) == 9.0
    ensures CheckOutStatus(Present, start + 30_600_000, start + 63_000_000) == Present
    ensures CheckInStatus(9) == Present
    ensures ElapsedHours(start + 33_300_000, start + 43_200_000) == 2.75
    ensures CheckOutStatus(CheckInStatus(9), start + 33_300_000, start + 43_200_000) == HalfDay
  {
  }

  // ---------------------------------------------------------------------------
  // The attendance store

  /** The store holds at most one row per (user, day). */
  type Key = (UserId, Day)

  datatype ActionError =
    | AlreadyCheckedIn      // the insert collides with today's row
    | StoreUnavailable      // the store rejected the request
    | PleaseCheckInFirst    // check-out found no row for today
    | MissingCheckInTime    // today's row has no check-in time to measure from

  /** The columns a check-out writes. */
  datatype CheckOutPatch = CheckOutPatch(checkOutTime: Instant, totalHours: real, status: AttendanceStatus)

  function ApplyPatch(a: Attendance, p: CheckOutPatch): Attendance
  {
    a.(checkOutTime := Some(p.checkOutTime), totalHours := Some(p.totalHours), status := p.status)
  }

  /** Each row sits under the key of its own user and day. */
  ghost predicate WellKeyed(rows: map<Key, Attendance>)
  {
    forall k :: k in rows ==> rows[k].userId == k.0 && rows[k].date == k.1
  }

  ghost predicate UniqueIds(rows: map<Key, Attendance>)
  {
    forall k1, k2 :: k1 in rows && k2 in rows && rows[k1].id == rows[k2].id ==> k1 == k2
  }

  /** `.update(patch).eq('id', id)`: the patch goes to every row with that id; the identifying
      columns of every row stay as they were. */
  function UpdateById(rows: map<Key, Attendance>, id: RecordId, p: CheckOutPatch): (r: map<Key, Attendance>)
    ensures r.Keys == rows.Keys
    ensures forall k :: k in r ==> r[k].id == rows[k].id && r[k].userId == rows[k].userId && r[k].date == rows[k].date
  {
    map k | k in rows :: if rows[k].id == id then ApplyPatch(rows[k], p) else rows[k]
  }

  /** With unique ids, updating by the id of one row changes that row and no other. */
  lemma UpdateByIdTouchesOne(rows: map<Key, Attendance>, key: Key, p: CheckOutPatch)
    requires UniqueIds(rows) && key in rows
    ensures UpdateById(rows, rows[key].id, p) == rows[key := ApplyPatch(rows[key], p)]
  {
    var r := UpdateById(rows, rows[key].id, p);
    forall k | k in rows ensures r[k] == rows[key := ApplyPatch(rows[key], p)][k] {
      if k != key {
        assert rows[k].id != rows[key].id;
      }
    }
  }

  /** A successful check-in's row, as the insert leaves it (`total_hours` keeps its default, 0). */
  function NewRow(id: RecordId, user: UserId, now: Clock): (a: Attendance)
    ensures a.userId == user && a.date == now.day
    ensures a.checkInTime == Some(now.ms) && a.checkOutTime == None
    ensures a.status == (if now.hour > 9 then Late else Present)
  {
    Attendance(id, user, now.day, Some(now.ms), None, CheckInStatus(now.hour), Some(0.0), None)
  }

  /** Today's row after a check-out at `now`, measured from its check-in time. */
  function CheckedOut(a: Attendance, now: Instant): (b: Attendance)
    requires a.checkInTime.Some?
    ensures b.checkOutTime == Some(now)
    ensures b.totalHours == Some(ElapsedHours(a.checkInTime.value, now))
    ensures now - a.checkInTime.value < HalfDayMs ==> b.status == HalfDay
    ensures now - a.checkInTime.value >= HalfDayMs ==> b.status == a.status
    ensures b.id == a.id && b.userId == a.userId && b.date == a.date
    ensures b.checkInTime == a.checkInTime && b.notes == a.notes
  {
    var hours := ElapsedHours(a.checkInTime.value, now);
    ApplyPatch(a, CheckOutPatch(now, hours, CheckOutStatus(a.status, a.checkInTime.value, now)))
  }

  /** The `attendance` table: rows keyed by (user, day), and the counter that stands for the
      store's generator of fresh row ids. */
  class AttendanceStore {
    var rows: map<Key, Attendance>
    var nextId: RecordId

    ghost predicate Valid()
      reads this
    {
      && WellKeyed(rows)
      && UniqueIds(rows)
      && (forall k :: k in rows ==> rows[k].id < nextId)
    }

    constructor ()
      ensures Valid() && rows == map[]
    {
      rows := map[];
      nextId := 0;
    }

    /** `.insert(...)`: fails when the (user, day) already has a row, or when the store rejects
        the request (`accepted` is the store's answer). */
    method Insert(user: UserId, now: Clock, accepted: bool) returns (r: Result<Attendance>)
      requires Valid()
      modifies this
      ensures Valid()
      ensures (user, now.day) in old(rows) ==> r == Err(AlreadyCheckedIn) && rows == old(rows)
      ensures (user, now.day) !in old(rows) && !accepted ==> r == Err(StoreUnavailable) && rows == old(rows)
      ensures (user, now.day) !in old(rows) && accepted ==>
                r == Ok(NewRow(old(nextId), user, now)) && rows == old(rows)[(user, now.day) := r.value]
    {
      if (user, now.day) in rows {
        r := Err(AlreadyCheckedIn);
      } else if !accepted {
        r := Err(StoreUnavailable);
      } else {
        var row := NewRow(nextId, user, now);
        rows := rows[(user, now.day) := row];
        nextId := nextId + 1;
        r := Ok(row);
      }
    }

    /** `.update(patch).eq('id', id)`; `accepted` is the store's answer. */
    method Update(id: RecordId, p: CheckOutPatch, accepted: bool) returns (ok: bool)
      requires Valid()
      modifies this
      ensures Valid() && nextId == old(nextId)
      ensures ok == accepted
      ensures rows == if ok then UpdateById(old(rows), id, p) else old(rows)
    {
      ok := accepted;
      if ok {
        rows := UpdateById(rows, id, p);
      }
    }
  }

  datatype Result<T> = Ok(value: T) | Err(error: ActionError)

  /** What a button press ends in: nothing (no signed-in user), the written row, or an error toast. */
  datatype Outcome = Ignored | Succeeded(row: Attendance) | Failed(error: ActionError)

  // ---------------------------------------------------------------------------
  // The today card

  /** The card's state before any row has been loaded. */
  const Unmarked := TodayStatus(NotMarked, None, None, Some(0.0))

  function TodayOf(a: Attendance): TodayStatus
  {
    TodayStatus(Marked(a.status), a.checkInTime, a.checkOutTime, a.totalHours)
  }

  predicate ShowsCheckIn(t: TodayStatus)
  {
    t.checkInTime == None
  }

  predicate ShowsCheckOut(t: TodayStatus)
  {
    t.checkInTime != None && t.checkOutTime == None
  }

  /** The card offers check-in, then check-out, then neither; never both. */
  lemma ButtonPhases(t: TodayStatus, a: Attendance)
    ensures ShowsCheckIn(Unmarked) && !ShowsCheckOut(Unmarked)
    ensures !(ShowsCheckIn(t) && ShowsCheckOut(t))
    ensures a.checkInTime != None && a.checkOutTime == None ==> ShowsCheckOut(TodayOf(a)) && !ShowsCheckIn(TodayOf(a))
    ensures a.checkInTime != None && a.checkOutTime != None ==> !ShowsCheckOut(TodayOf(a)) && !ShowsCheckIn(TodayOf(a))
  {
  }

  /** The employee page sends a settled, signed-out session to the sign-in page; unlike the
      manager pages it does not look at the role. */
  function RedirectsToAuth(auth: AuthState): bool
  {
    !auth.loading && auth.user == None
  }

  /** The page turns away exactly the sessions the landing page sends to sign-in, whatever the
      role. */
  lemma GuardAgreesWithIndex(auth: AuthState, other: Option<Role>)
    ensures RedirectsToAuth(auth) <==> Navigation.IndexTarget(auth) == Some(Navigation.AuthPage)
    ensures RedirectsToAuth(auth) == RedirectsToAuth(AuthState(auth.loading, auth.user, other))
  {
  }

  /** The page component: the store it talks to, the today card and the in-flight flag. */
  class Dashboard {
    const store: AttendanceStore
    var todayStatus: TodayStatus
    var loading: bool

    ghost predicate Valid()
      reads this, store
    {
      store.Valid()
    }

    constructor (store: AttendanceStore)
      requires store.Valid()
      ensures Valid() && this.store == store
      ensures todayStatus == Unmarked && !loading
    {
      this.store := store;
      todayStatus := Unmarked;
      loading := false;
    }

    /** The today part of `fetchDashboardData`: a row for today replaces the card; with no
        row the card keeps what it showed, so it stays `not-marked` until a row exists. */
    method RefreshToday(user: UserId, today: Day)
      requires Valid()
      modifies this
      ensures Valid() && loading == old(loading)
      ensures todayStatus == if (user, today) in store.rows then TodayOf(store.rows[(user, today)]) else old(todayStatus)
    {
      if (user, today) in store.rows {
        todayStatus := TodayOf(store.rows[(user, today)]);
      }
    }

    /** `handleCheckIn`. */
    method CheckIn(user: Option<UserId>, now: Clock, accepted: bool) returns (outcome: Outcome)
      requires Valid()
      modifies this, store
      ensures Valid()
      ensures user == None ==>
                outcome == Ignored && store.rows == old(store.rows)
                && todayStatus == old(todayStatus) && loading == old(loading)
      ensures user != None ==> !loading
      ensures user != None && (user.value, now.day) in old(store.rows) ==>
                outcome == Failed(AlreadyCheckedIn) && store.rows == old(store.rows) && todayStatus == old(todayStatus)
      ensures user != None && (user.value, now.day) !in old(store.rows) && !accepted ==>
                outcome == Failed(StoreUnavailable) && store.rows == old(store.rows) && todayStatus == old(todayStatus)
      ensures user != None && (user.value, now.day) !in old(store.rows) && accepted ==>
                && outcome == Succeeded(NewRow(old(store.nextId), user.value, now))
                && store.rows == old(store.rows)[(user.value, now.day) := outcome.row]
                && todayStatus == TodayOf(outcome.row)
                && ShowsCheckOut(todayStatus) && !ShowsCheckIn(todayStatus)
    {
      if user == None {
        return Ignored;
      }
      loading := true;
      var r := store.Insert(user.value, now, accepted);
      if r.Err? {
        outcome := Failed(r.error);
      } else {
        RefreshToday(user.value, now.day);
        outcome := Succeeded(r.value);
      }
      loading := false;
    }

    /** `handleCheckOut`. Like the code, it does not refuse a row that already has a check-out
        time: the button is hidden then, but a second call would measure again from check-in. */
    method CheckOut(user: Option<UserId>, now: Clock, accepted: bool) returns (outcome: Outcome)
      requires Valid()
      modifies this, store
      ensures Valid()
      ensures user == None ==>
                outcome == Ignored && store.rows == old(store.rows)
                && todayStatus == old(todayStatus) && loading == old(loading)
      ensures user != None ==> !loading
      ensures user != None && (user.value, now.day) !in old(store.rows) ==>
                outcome == Failed(PleaseCheckInFirst) && store.rows == old(store.rows) && todayStatus == old(todayStatus)
      ensures user != None && (user.value, now.day) in old(store.rows) ==>
                var row := old(store.rows)[(user.value, now.day)];
                if row.checkInTime == None then
                  outcome == Failed(MissingCheckInTime) && store.rows == old(store.rows) && todayStatus == old(todayStatus)
                else if !accepted then
                  outcome == Failed(StoreUnavailable) && store.rows == old(store.rows) && todayStatus == old(todayStatus)
                else
                  && outcome == Succeeded(CheckedOut(row, now.ms))
                  && store.rows == old(store.rows)[(user.value, now.day) := outcome.row]
                  && todayStatus == TodayOf(outcome.row)
                  && !ShowsCheckIn(todayStatus) && !ShowsCheckOut(todayStatus)
    {
      if user == None {
        return Ignored;
      }
      loading := true;
      var key := (user.value, now.day);
      if key !in store.rows {
        outcome := Failed(PleaseCheckInFirst);
      } else {
        var row := store.rows[key];
        if row.checkInTime == None {
          outcome := Failed(MissingCheckInTime);
        } else {
          var checkIn := row.checkInTime.value;
          var hours := ElapsedHours(checkIn, now.ms);
          var status := row.status;
          if hours < 4.0 {
            status := HalfDay;
          }
          var patch := CheckOutPatch(now.ms, hours, status);
          ghost var before := store.rows;
          var ok := store.Update(row.id, patch, accepted);
          if !ok {
            outcome := Failed(StoreUnavailable);
          } else {
            UpdateByIdTouchesOne(before, key, patch);
            RefreshToday(user.value, now.day);
            outcome := Succeeded(store.rows[key]);
          }
        }
      }
      loading := false;
    }
  }

  // ---------------------------------------------------------------------------
  // The monthly summary

  /** The rows `.eq('user_id', user).gte('date', monthStart)` selects; there is no upper bound. */
  function MonthRows(rows: seq<Attendance>, user: UserId, monthStart: Day): (r: seq<Attendance>)
    ensures forall a :: a in r <==> a in rows && a.userId == user && a.date >= monthStart
  {
    Filter(rows, (a: Attendance) => a.userId == user && a.date >= monthStart)
  }

  /** `a.total_hours || 0`. */
  function HoursOrZero(a: Attendance): real
  {
    match a.totalHours
    case Some(h) => h
    case None => 0.0
  }

  /** `reduce((sum, a) => sum + (a.total_hours || 0), 0)`. */
  function SumHours(rows: seq<Attendance>): real
  {
    if rows == [] then 0.0 else HoursOrZero(rows[0]) + SumHours(rows[1..])
  }

  lemma {:induction false} SumHoursConcat(a: seq<Attendance>, b: seq<Attendance>)
    ensures SumHours(a + b) == SumHours(a) + SumHours(b)
  {
    if a == [] {
      assert a + b == b;
    } else {
      assert (a + b)[1..] == a[1..] + b;
      SumHoursConcat(a[1..], b);
    }
  }

  lemma {:induction false} SumHoursPermutation(a: seq<Attendance>, b: seq<Attendance>)
    requires multiset(a) == multiset(b)
    ensures SumHours(a) == SumHours(b)
    decreases |a|
  {
    if a == [] {
      assert |b| == |multiset(b)| == 0;
    } else {
      var i := PermutationHead(a, b);
      SumHoursPermutation(a[1..], b[..i] + b[i + 1..]);
      assert b == b[..i] + ([b[i]] + b[i + 1..]);
      SumHoursConcat(b[..i], [b[i]] + b[i + 1..]);
      SumHoursConcat([b[i]], b[i + 1..]);
      SumHoursConcat(b[..i], b[i + 1..]);
    }
  }

  /** The four status counts and the hours of a set of rows. */
  function Summarize(rows: seq<Attendance>): (s: MonthlySummary)
    ensures s.present + s.absent + s.late + s.halfDay == |rows|
    ensures rows == [] ==> s == MonthlySummary(0, 0, 0, 0, 0.0)
  {
    StatusCountsPartition(rows);
    MonthlySummary(
      CountStatus(rows, Present),
      CountStatus(rows, Absent),
      CountStatus(rows, Late),
      CountStatus(rows, HalfDay),
      SumHours(rows))
  }

  /** The store returns the month's rows in no particular order; the summary does not depend on it. */
  lemma SummarizePermutation(a: seq<Attendance>, b: seq<Attendance>)
    requires multiset(a) == multiset(b)
    ensures Summarize(a) == Summarize(b)
  {
    CountStatusPermutation(a, b, Present);
    CountStatusPermutation(a, b, Absent);
    CountStatusPermutation(a, b, Late);
    CountStatusPermutation(a, b, HalfDay);
    SumHoursPermutation(a, b);
  }

  /** The monthly card of `fetchDashboardData`. */
  function MonthlySummaryOf(rows: seq<Attendance>, user: UserId, monthStart: Day): (s: MonthlySummary)
    ensures s.present + s.absent + s.late + s.halfDay == |MonthRows(rows, user, monthStart)|
    ensures (forall a :: a in rows ==> a.userId != user || a.date < monthStart) ==> s == MonthlySummary(0, 0, 0, 0, 0.0)
  {
    var month := MonthRows(rows, user, monthStart);
    assert (forall a :: a in rows ==> a.userId != user || a.date < monthStart) ==> month == [] by {
      if month != [] { assert month[0] in month; }
    }
    Summarize(month)
  }
}
