/** Attendance rows read together with their owner's profile (`select('*, profiles(...)')`),
    and the normalisation both manager pages apply to the joined relation. */
module JoinedRows {
  import opened AttendanceTypes

  /** The joined relation as the store may hand it back: one object, a list, or null. */
  datatype Joined = One(profile: Profile) | Many(profiles: seq<Profile>) | Missing

  datatype JoinedRow = JoinedRow(record: Attendance, profiles: Joined)

  /** A row after normalisation; `None` stands for the `undefined` an empty list or a null gives. */
  datatype ListedRow = ListedRow(record: Attendance, profile: Option<Profile>)

  /** `Array.isArray(a.profiles) ? a.profiles[0] : a.profiles`. */
  function NormaliseProfile(j: Joined): Option<Profile>
  {
    match j
    case One(p) => Some(p)
    case Many(ps) => if |ps| > 0 then Some(ps[0]) else None
    case Missing => None
  }

  /** A profile handed back as an object and the same profile at the head of a list normalise
      alike; a null or an empty list leaves no profile. */
  lemma NormaliseShapesAgree(p: Profile, rest: seq<Profile>)
    ensures NormaliseProfile(One(p)) == NormaliseProfile(Many([p] + rest)) == Some(p)
    ensures NormaliseProfile(Many([])) == NormaliseProfile(Missing) == None
  {
  }

  function Listed(r: JoinedRow): ListedRow
  {
    ListedRow(r.record, NormaliseProfile(r.profiles))
  }

  /** `data || []`: a failed query reads as no rows. */
  function OrEmpty<T>(data: Option<seq<T>>): seq<T>
  {
    match data
    case Some(s) => s
    case None => []
  }

  /** The attendance columns of joined rows, in order. */
  function Records(rows: seq<JoinedRow>): (r: seq<Attendance>)
    ensures |r| == |rows| && forall i :: 0 <= i < |rows| ==> r[i] == rows[i].record
  {
    seq(|rows|, i requires 0 <= i < |rows| => rows[i].record)
  }

  lemma RecordsConcat(a: seq<JoinedRow>, b: seq<JoinedRow>)
    ensures Records(a + b) == Records(a) + Records(b)
  {
    assert forall i :: 0 <= i < |a + b| ==> Records(a + b)[i] == (Records(a) + Records(b))[i];
  }

  /** The profile-normalising `map` over a query result. */
  function NormaliseRows(data: Option<seq<JoinedRow>>): (r: seq<ListedRow>)
    ensures |r| == |OrEmpty(data)|
    ensures forall i :: 0 <= i < |r| ==> r[i].record == OrEmpty(data)[i].record
    ensures forall i :: 0 <= i < |r| ==> r[i].profile == NormaliseProfile(OrEmpty(data)[i].profiles)
  {
    var rows := OrEmpty(data);
    seq(|rows|, i requires 0 <= i < |rows| => Listed(rows[i]))
  }
}
