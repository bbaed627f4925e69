/** The manager's list of every attendance record: a text search over the owner's profile and a
    status selector, applied to the normalised joined rows. */
module AllAttendance {
  import opened Seqs
  import opened AttendanceTypes
  import opened JoinedRows
  import Navigation
  import ManagerDashboard

  // ---------------------------------------------------------------------------
  // Lower-casing and substring search

  /** `toLowerCase` on one character, for the ASCII letters. */
  function ToLowerChar(c: char): (d: char)
    ensures 'A' <= c <= 'Z' ==> d as int == c as int + 32
    ensures !('A' <= c <= 'Z') ==> d == c
    ensures !('A' <= d <= 'Z')
  {
    if 'A' <= c <= 'Z' then (c as int + 32) as char else c
  }

  function ToLower(s: string): (r: string)
    ensures |r| == |s|
    ensures forall i :: 0 <= i < |s| ==> r[i] == ToLowerChar(s[i])
  {
    seq(|s|, i requires 0 <= i < |s| => ToLowerChar(s[i]))
  }

  /** Lower-casing twice is lower-casing once. */
  lemma ToLowerIdempotent(s: string)
    ensures ToLower(ToLower(s)) == ToLower(s)
  {
    assert forall i :: 0 <= i < |s| ==> ToLower(ToLower(s))[i] == ToLower(s)[i];
  }

  /** `hay.includes(needle)`: the needle starts at the first position, or somewhere later. */
  function Includes(hay: string, needle: string): bool
    decreases |hay|
  {
    (|needle| <= |hay| && hay[..|needle|] == needle) || (hay != [] && Includes(hay[1..], needle))
  }

  /** The needle occurs in the haystack starting at position `i`. */
  predicate OccursAt(hay: string, needle: string, i: int)
  {
    0 <= i && i + |needle| <= |hay| && hay[i..i + |needle|] == needle
  }

  /** A text that `includes` the needle has an occurrence of it. */
  lemma {:induction false} IncludesWitness(hay: string, needle: string) returns (i: nat)
    requires Includes(hay, needle)
    ensures OccursAt(hay, needle, i)
    decreases |hay|
  {
    if |needle| <= |hay| && hay[..|needle|] == needle {
      i := 0;
    } else {
      var j := IncludesWitness(hay[1..], needle);
      assert hay[j + 1..j + 1 + |needle|] == hay[1..][j..j + |needle|];
      i := j + 1;
    }
  }

  /** An occurrence anywhere makes `includes` hold. */
  lemma {:induction false} OccurrenceIncludes(hay: string, needle: string, i: int)
    requires OccursAt(hay, needle, i)
    ensures Includes(hay, needle)
    decreases i
  {
    if i > 0 {
      assert hay[1..][i - 1..i - 1 + |needle|] == hay[i..i + |needle|];
      OccurrenceIncludes(hay[1..], needle, i - 1);
    }
  }

  /** `includes` holds exactly when the needle occurs at some position of the haystack. */
  lemma IncludesAt(hay: string, needle: string)
    ensures Includes(hay, needle) <==> exists i :: OccursAt(hay, needle, i)
  {
    if Includes(hay, needle) {
      var i := IncludesWitness(hay, needle);
    }
    if exists i :: OccursAt(hay, needle, i) {
      var i :| OccursAt(hay, needle, i);
      OccurrenceIncludes(hay, needle, i);
    }
  }

  /** Every text includes the empty text. */
  lemma IncludesEmpty(hay: string)
    ensures Includes(hay, "")
  {
    assert hay[..0] == "";
  }

  // ---------------------------------------------------------------------------
  // The page's filter

  /** The name, the employee id or the department includes the term, ignoring case. */
  function MatchesSearch(p: Profile, term: string): bool
  {
    var t := ToLower(term);
    Includes(ToLower(p.name), t) || Includes(ToLower(p.employeeId), t) || Includes(ToLower(p.department), t)
  }

  /** The status selector: `all`, or one status. */
  datatype StatusFilter = AllStatuses | Only(status: AttendanceStatus)

  function MatchesStatus(a: Attendance, f: StatusFilter): bool
  {
    f == AllStatuses || a.status == f.status
  }

  function Searched(term: string): ListedRow -> bool
  {
    (r: ListedRow) => r.profile.Some? && MatchesSearch(r.profile.value, term)
  }

  function StatusAccepted(f: StatusFilter): ListedRow -> bool
  {
    (r: ListedRow) => MatchesStatus(r.record, f)
  }

  /** `matchesSearch && matchesStatus`. */
  function Keeps(term: string, f: StatusFilter): ListedRow -> bool
  {
    Both(Searched(term), StatusAccepted(f))
  }

  /** `filteredAttendance`; `None` when some record has no profile, where the predicate reads
      `record.profile.name` of `undefined` and the page fails to render. */
  function FilteredAttendance(records: seq<ListedRow>, term: string, f: StatusFilter): (r: Option<seq<ListedRow>>)
    ensures r.None? <==> exists i :: 0 <= i < |records| && records[i].profile.None?
    ensures r.Some? ==> |r.value| <= |records|
    ensures r.Some? ==> forall x :: x in r.value <==>
              x in records && MatchesSearch(x.profile.value, term) && MatchesStatus(x.record, f)
  {
    if exists i :: 0 <= i < |records| && records[i].profile.None? then None
    else
      assert forall x :: x in records ==> x.profile.Some?;
      Some(Filter(records, Keeps(term, f)))
  }

  /** An empty search with `all` selected lists every record unchanged. */
  lemma EmptySearchKeepsAll(records: seq<ListedRow>)
    requires forall i :: 0 <= i < |records| ==> records[i].profile.Some?
    ensures FilteredAttendance(records, "", AllStatuses) == Some(records)
  {
    forall i | 0 <= i < |records| ensures Keeps("", AllStatuses)(records[i]) {
      assert ToLower("") == "";
      IncludesEmpty(ToLower(records[i].profile.value.name));
    }
    FilterKeepsAll(records, Keeps("", AllStatuses));
  }

  /** The search ignores case: a term and its lower-cased form select the same records. */
  lemma SearchIgnoresCase(records: seq<ListedRow>, term: string, f: StatusFilter)
    ensures FilteredAttendance(records, term, f) == FilteredAttendance(records, ToLower(term), f)
  {
    ToLowerIdempotent(term);
    if forall i :: 0 <= i < |records| ==> records[i].profile.Some? {
      FilterSamePredicate(records, Keeps(term, f), Keeps(ToLower(term), f));
    }
  }

  /** Selecting one status narrows the `all` list to the records with that status, in order. */
  lemma StatusNarrowsAll(records: seq<ListedRow>, term: string, st: AttendanceStatus)
    requires forall i :: 0 <= i < |records| ==> records[i].profile.Some?
    ensures FilteredAttendance(records, term, Only(st)).value ==
            Filter(FilteredAttendance(records, term, AllStatuses).value, StatusAccepted(Only(st)))
  {
    var all := Keeps(term, AllStatuses);
    FilterFilter(records, all, StatusAccepted(Only(st)));
    FilterSamePredicate(records, Keeps(term, Only(st)), Both(all, StatusAccepted(Only(st))));
  }

  /** The page's list: the filter over the normalised rows of the query result. */
  function PageRows(data: Option<seq<JoinedRow>>, term: string, f: StatusFilter): (r: Option<seq<ListedRow>>)
    ensures r.None? <==> exists i :: 0 <= i < |OrEmpty(data)| && NormaliseProfile(OrEmpty(data)[i].profiles).None?
    ensures r.Some? ==> forall x :: x in r.value ==>
              exists i :: 0 <= i < |OrEmpty(data)| && x.record == OrEmpty(data)[i].record
                          && x.profile == NormaliseProfile(OrEmpty(data)[i].profiles)
  {
    var rows := NormaliseRows(data);
    var r := FilteredAttendance(rows, term, f);
    assert r.Some? ==> forall x :: x in r.value ==> exists i :: 0 <= i < |rows| && x == rows[i];
    r
  }

  // ---------------------------------------------------------------------------
  // Guard

  /** The page keeps the manager page's guard: it turns away exactly the settled sessions that are
      not managers' and loads data only for managers. */
  lemma GuardIsManagerGuard(auth: AuthState)
    ensures ManagerDashboard.RedirectsToAuth(auth) <==>
              !auth.loading && Navigation.IndexTarget(auth) != Some(Navigation.ManagerPage)
    ensures ManagerDashboard.FetchesData(auth) <==> Navigation.IndexTarget(AuthState(false, auth.user, auth.role)) == Some(Navigation.ManagerPage)
  {
  }
}
