/**
 * The custom queries of AppointmentRepository, as filters over the rows of the
 * appointments table; ORDER BY startTime is an insertion sort on the start time.
 */
module AppointmentQueries {
  import opened Wrappers
  import opened Calendar
  import opened Appointments
  import opened Filters

  /** The nil UUID '00000000-0000-0000-0000-000000000000' the overlap query falls back to. */
  const NilUuid: Uuid := 0

  predicate SortedByStart(s: seq<Appointment>)
    reads s
  {
    forall i, j :: 0 <= i < j < |s| ==> s[i].startTime <= s[j].startTime
  }

  /** A row paired with its sort key. */
  datatype Keyed = Keyed(key: int, row: Appointment)

  predicate SortedKeys(s: seq<Keyed>) {
    forall i, j :: 0 <= i < j < |s| ==> s[i].key <= s[j].key
  }

  /** Puts `x` after every entry of `s` whose key is not larger. */
  function InsertByKey(x: Keyed, s: seq<Keyed>): (r: seq<Keyed>)
    requires SortedKeys(s)
    ensures multiset(r) == multiset(s) + multiset{x}
    ensures |r| > 0 && (r[0] == x || (s != [] && r[0] == s[0]))
    ensures SortedKeys(r)
  {
    if s == [] || x.key < s[0].key then
      InsertAtFront(x, s);
      [x] + s
    else
      var rest := InsertByKey(x, s[1..]);
      InsertAfterHead(x, s, rest);
      [s[0]] + rest
  }

  /** An entry with a key below the first of a sorted sequence can go in front of it. */
  lemma InsertAtFront(x: Keyed, s: seq<Keyed>)
    requires SortedKeys(s) && (s == [] || x.key < s[0].key)
    ensures SortedKeys([x] + s)
  {
    assert forall i :: 0 <= i < |s| ==> s[0].key <= s[i].key;
  }

  /** The head of a sorted sequence, put back in front of `x` inserted into the tail. */
  lemma InsertAfterHead(x: Keyed, s: seq<Keyed>, rest: seq<Keyed>)
    requires s != [] && s[0].key <= x.key && SortedKeys(s)
    requires multiset(rest) == multiset(s[1..]) + multiset{x} && SortedKeys(rest)
    ensures multiset([s[0]] + rest) == multiset(s) + multiset{x}
    ensures SortedKeys([s[0]] + rest)
  {
    assert s == [s[0]] + s[1..];
    HeadBelowRest(s[0], x, s[1..], rest);
  }

  /** Every entry of `x` inserted into `t` is at least `h`, when `h` bounds `x` and `t`. */
  lemma HeadBelowRest(h: Keyed, x: Keyed, t: seq<Keyed>, rest: seq<Keyed>)
    requires h.key <= x.key && forall i :: 0 <= i < |t| ==> h.key <= t[i].key
    requires multiset(rest) == multiset(t) + multiset{x}
    ensures forall i :: 0 <= i < |rest| ==> h.key <= rest[i].key
  {
    forall i | 0 <= i < |rest| ensures h.key <= rest[i].key {
      assert rest[i] in multiset(rest);
      if rest[i] != x {
        assert rest[i] in multiset(t);
        var j :| 0 <= j < |t| && t[j] == rest[i];
      }
    }
  }

  /** Insertion sort on the key. */
  function SortByKey(s: seq<Keyed>): (r: seq<Keyed>)
    ensures multiset(r) == multiset(s) && SortedKeys(r)
  {
    if s == [] then []
    else
      assert s == s[..|s| - 1] + [s[|s| - 1]];
      InsertByKey(s[|s| - 1], SortByKey(s[..|s| - 1]))
  }

  /** Each row keyed by its start time. */
  function KeyedByStart(s: seq<Appointment>): (r: seq<Keyed>)
    reads s
    ensures |r| == |s|
    ensures forall i :: 0 <= i < |r| ==> r[i].row == s[i] && r[i].key == s[i].startTime
  {
    seq(|s|, i requires 0 <= i < |s| reads s => Keyed(s[i].startTime, s[i]))
  }

  /** The rows of keyed entries. */
  function Rows(s: seq<Keyed>): (r: seq<Appointment>)
    ensures |r| == |s| && forall i :: 0 <= i < |s| ==> r[i] == s[i].row
  {
    seq(|s|, i requires 0 <= i < |s| => s[i].row)
  }

  lemma RowsAppend(a: seq<Keyed>, b: seq<Keyed>)
    ensures Rows(a + b) == Rows(a) + Rows(b)
  {
    assert forall i :: 0 <= i < |a + b| ==> Rows(a + b)[i] == (Rows(a) + Rows(b))[i];
  }

  /** Taking entry `j` out of `b` takes one copy of it out of the multiset. */
  lemma MultisetRemove(b: seq<Keyed>, j: nat)
    requires j < |b|
    ensures multiset(b) == multiset(b[..j] + b[j + 1..]) + multiset{b[j]}
  {
    assert b == b[..j] + [b[j]] + b[j + 1..];
  }

  /** One copy of `x` added to two multisets that then agree: they agreed before. */
  lemma MultisetCancel(m1: multiset<Keyed>, m2: multiset<Keyed>, x: Keyed)
    requires m1 + multiset{x} == m2 + multiset{x}
    ensures m1 == m2
  {
    forall y ensures m1[y] == m2[y] {
      assert (m1 + multiset{x})[y] == m1[y] + multiset{x}[y];
      assert (m2 + multiset{x})[y] == m2[y] + multiset{x}[y];
    }
  }

  /** Taking entry `j` out of `b` takes one copy of its row out of the rows. */
  lemma RowsRemove(b: seq<Keyed>, j: nat)
    requires j < |b|
    ensures multiset(Rows(b)) == multiset(Rows(b[..j] + b[j + 1..])) + multiset{b[j].row}
  {
    var front, back := b[..j], b[j + 1..];
    assert b == front + [b[j]] + back;
    RowsAppend(front + [b[j]], back);
    RowsAppend(front, [b[j]]);
    RowsAppend(front, back);
    assert Rows([b[j]]) == [b[j].row];
    assert multiset(Rows(b)) == multiset(Rows(front)) + multiset{b[j].row} + multiset(Rows(back));
  }

  /** Rearranging keyed entries rearranges their rows the same way. */
  lemma {:induction false} RowsOfPermutation(a: seq<Keyed>, b: seq<Keyed>)
    requires multiset(a) == multiset(b)
    ensures multiset(Rows(a)) == multiset(Rows(b))
    decreases |a|
  {
    if a == [] {
      assert |multiset(b)| == 0;
    } else {
      var x := a[0];
      assert x in multiset(b);
      var j :| 0 <= j < |b| && b[j] == x;
      var others := b[..j] + b[j + 1..];
      MultisetRemove(b, j);
      assert a == [x] + a[1..];
      MultisetCancel(multiset(a[1..]), multiset(others), x);
      RowsOfPermutation(a[1..], others);
      RowsAppend([x], a[1..]);
      assert Rows([x]) == [x.row];
      assert multiset(Rows(a)) == multiset(Rows(a[1..])) + multiset{x.row};
      RowsRemove(b, j);
    }
  }

  /** A rearrangement of entries keyed by their row's start time is keyed the same way. */
  lemma KeysAreStarts(keyed: seq<Keyed>, sorted: seq<Keyed>)
    requires forall i :: 0 <= i < |keyed| ==> keyed[i].key == keyed[i].row.startTime
    requires multiset(sorted) == multiset(keyed)
    ensures forall i :: 0 <= i < |sorted| ==> sorted[i].key == sorted[i].row.startTime
  {
    forall i | 0 <= i < |sorted|
      ensures sorted[i].key == sorted[i].row.startTime
    {
      assert sorted[i] in multiset(keyed);
      var j :| 0 <= j < |keyed| && keyed[j] == sorted[i];
    }
  }

  /** ORDER BY startTime: the same rows, as often as before, earliest start first. */
  function SortByStart(s: seq<Appointment>): (r: seq<Appointment>)
    reads s
    ensures multiset(r) == multiset(s) && SortedByStart(r)
  {
    var keyed := KeyedByStart(s);
    var sorted := SortByKey(keyed);
    KeysAreStarts(keyed, sorted);
    RowsOfPermutation(sorted, keyed);
    assert Rows(keyed) == s;
    Rows(sorted)
  }

  /** `start <= a.startTime < end`: the range queries include the start and exclude the end. */
  predicate StartsIn(a: Appointment, start: Instant, end: Instant)
    reads a
  {
    start <= a.startTime < end
  }

  /** The column a range query keys on. */
  datatype Party = ByPatient | ByProvider

  /** The row belongs to the patient, or to the provider, with that id. */
  predicate OwnedBy(a: Appointment, party: Party, id: Uuid)
    reads a
  {
    match party
    case ByPatient => a.patientId == id
    case ByProvider => a.providerId == id
  }

  /** The WHERE clause of the two range queries. */
  predicate InRange(a: Appointment, party: Party, id: Uuid, start: Instant, end: Instant)
    reads a
  {
    OwnedBy(a, party, id) && StartsIn(a, start, end)
  }

  /**
   * The rows of the patient or provider starting in [start, end): only matching
   * rows, and each matching row as often as the table holds it.
   */
  function RowsIn(rows: seq<Appointment>, party: Party, id: Uuid, start: Instant, end: Instant): (r: seq<Appointment>)
    reads rows
    ensures forall i :: 0 <= i < |r| ==> r[i] in rows && InRange(r[i], party, id, start, end)
    ensures forall a | a in rows && InRange(a, party, id, start, end) :: multiset(r)[a] == multiset(rows)[a]
  {
    if rows == [] then []
    else
      var rest := RowsIn(rows[1..], party, id, start, end);
      var keep := InRange(rows[0], party, id, start, end);
      FilterStep(rows, rest, keep, set a | a in rows && InRange(a, party, id, start, end));
      if keep then [rows[0]] + rest else rest
  }

  /** A sorted rearrangement of `found` keeps its members and their counts. */
  lemma SortedKeepsRows(rows: seq<Appointment>, found: seq<Appointment>, r: seq<Appointment>)
    requires multiset(r) == multiset(found)
    requires forall i :: 0 <= i < |found| ==> found[i] in rows
    ensures forall i :: 0 <= i < |r| ==> r[i] in found
    ensures forall i :: 0 <= i < |r| ==> r[i] in rows
  {
    forall i | 0 <= i < |r| ensures r[i] in found {
      assert r[i] in multiset(r);
    }
  }

  /** findByPatientIdAndStartTimeBetween: the patient's appointments starting in [start, end), by start time. */
  function FindByPatientIdAndStartTimeBetween(rows: seq<Appointment>, patientId: Uuid, start: Instant, end: Instant)
    : (r: seq<Appointment>)
    reads rows
    ensures SortedByStart(r)
    ensures forall i :: 0 <= i < |r| ==> r[i] in rows && r[i].patientId == patientId && StartsIn(r[i], start, end)
    ensures forall a | a in rows && a.patientId == patientId && StartsIn(a, start, end) ::
              multiset(r)[a] == multiset(rows)[a]
  {
    var found := RowsIn(rows, ByPatient, patientId, start, end);
    var r := SortByStart(found);
    SortedKeepsRows(rows, found, r);
    r
  }

  /**
   * findByProviderIdAndStartTimeBetween and findProviderAppointmentsInDateRange (the
   * same query): the provider's appointments starting in [start, end), by start time.
   */
  function FindByProviderIdAndStartTimeBetween(rows: seq<Appointment>, providerId: Uuid, start: Instant, end: Instant)
    : (r: seq<Appointment>)
    reads rows
    ensures SortedByStart(r)
    ensures forall i :: 0 <= i < |r| ==> r[i] in rows && r[i].providerId == providerId && StartsIn(r[i], start, end)
    ensures forall a | a in rows && a.providerId == providerId && StartsIn(a, start, end) ::
              multiset(r)[a] == multiset(rows)[a]
  {
    var found := RowsIn(rows, ByProvider, providerId, start, end);
    var r := SortByStart(found);
    SortedKeepsRows(rows, found, r);
    r
  }

  /** The row the overlap query compares against: a row whose id is set and is not the excluded one. */
  predicate NotExcluded(a: Appointment, excluded: Option<Uuid>)
    reads a
  {
    a.id.Some? && a.id.value != (if excluded.Some? then excluded.value else NilUuid)
  }

  /** The open intervals (aStart, aEnd) and (start, end) share an instant. */
  predicate Meets(aStart: Instant, aEnd: Instant, start: Instant, end: Instant) {
    aStart < end && aEnd > start
  }

  /**
   * hasOverlappingAppointments: some row of the provider other than the excluded
   * one (the nil UUID when none is given) meets (start, end).
   */
  function HasOverlappingAppointments(rows: seq<Appointment>, providerId: Uuid, start: Instant, end: Instant,
                                      excluded: Option<Uuid>): (r: bool)
    reads rows
    ensures r <==> exists i :: 0 <= i < |rows| && rows[i].providerId == providerId && NotExcluded(rows[i], excluded)
                                && Meets(rows[i].startTime, rows[i].endTime, start, end)
  {
    if rows == [] then false
    else
      var a := rows[0];
      assert forall i :: 1 <= i < |rows| ==> rows[i] == rows[1..][i - 1];
      (a.providerId == providerId && NotExcluded(a, excluded) && Meets(a.startTime, a.endTime, start, end))
      || HasOverlappingAppointments(rows[1..], providerId, start, end, excluded)
  }

  /** Statuses excluded from the upcoming list. */
  predicate IsClosed(s: AppointmentStatus) {
    s == Cancelled || s == Completed || s == NoShow
  }

  /** The WHERE clause of the upcoming-appointments query. */
  predicate Upcoming(a: Appointment, patientId: Uuid, now: Instant)
    reads a
  {
    a.patientId == patientId && a.startTime > now && !IsClosed(a.status)
  }

  /**
   * The patient's appointments that start after now and are not closed: only
   * those, and each as often as the table holds it.
   */
  function UpcomingRows(rows: seq<Appointment>, patientId: Uuid, now: Instant): (r: seq<Appointment>)
    reads rows
    ensures forall i :: 0 <= i < |r| ==> r[i] in rows && Upcoming(r[i], patientId, now)
    ensures forall a | a in rows && Upcoming(a, patientId, now) :: multiset(r)[a] == multiset(rows)[a]
  {
    if rows == [] then []
    else
      var rest := UpcomingRows(rows[1..], patientId, now);
      var keep := Upcoming(rows[0], patientId, now);
      FilterStep(rows, rest, keep, set a | a in rows && Upcoming(a, patientId, now));
      if keep then [rows[0]] + rest else rest
  }

  /**
   * findUpcomingAppointments: the patient's appointments starting strictly after now
   * that are not CANCELLED, COMPLETED or NO_SHOW, earliest first. `limit` is not used.
   */
  function FindUpcomingAppointments(rows: seq<Appointment>, patientId: Uuid, now: Instant, limit: int)
    : (r: seq<Appointment>)
    reads rows
    ensures SortedByStart(r)
    ensures forall i :: 0 <= i < |r| ==>
              r[i] in rows && r[i].patientId == patientId && r[i].startTime > now && !IsClosed(r[i].status)
    ensures forall a | a in rows && a.patientId == patientId && a.startTime > now && !IsClosed(a.status) ::
              multiset(r)[a] == multiset(rows)[a]
  {
    var found := UpcomingRows(rows, patientId, now);
    var r := SortByStart(found);
    SortedKeepsRows(rows, found, r);
    r
  }
}
