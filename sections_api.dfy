/**
 * GET /api/sections (src/pages/api/sections.ts): lists the active class
 * sections with their count of ACTIVE enrollments and the seats left.
 * The database query is an input: the section table as a sequence in the
 * order the query returns it.
 */
module SectionsApi {
  import opened Domain
  import opened Seqs

  datatype EnrollmentStatus = Active | Waitlisted | Cancelled

  /** A `classSection` row with the statuses of its enrollments. */
  datatype SectionRecord = SectionRecord(
    id: string,
    location: Location,
    day: Day,
    groupLabel: string,
    startDate: Option<string>,
    startTime: Option<string>,
    endTime: Option<string>,
    priceCents: int,
    capacity: int,
    isActive: bool,
    enrollments: seq<EnrollmentStatus>)

  /** The section shape the API returns and the registration page consumes. */
  datatype SectionView = SectionView(
    id: string,
    location: Location,
    day: Day,
    groupLabel: string,
    startDate: Option<string>,
    startTime: Option<string>,
    endTime: Option<string>,
    priceCents: int,
    capacity: int,
    activeCount: int,
    seatsRemaining: int)

  function Max(a: int, b: int): int
  {
    if a >= b then a else b
  }

  /** The seats a section has left: never negative, and zero exactly when it is full. */
  function SeatsRemaining(capacity: int, activeCount: int): (r: int)
    ensures r >= 0
    ensures r == 0 <==> activeCount >= capacity
    ensures r > 0 ==> activeCount + r == capacity
  {
    Max(0, capacity - activeCount)
  }

  /** The number of ACTIVE enrollments (`enrollments` filtered by status, then `.length`). */
  function ActiveCount(enrollments: seq<EnrollmentStatus>): (n: nat)
    ensures n <= |enrollments|
    ensures n == multiset(enrollments)[Active]
  {
    var active := Filter(enrollments, (e: EnrollmentStatus) => e == Active);
    AllEqualCount(active, Active);
    |active|
  }

  /** One element of the `shaped` mapping. */
  function Shape(s: SectionRecord): (v: SectionView)
    ensures v.id == s.id && v.location == s.location && v.day == s.day && v.groupLabel == s.groupLabel
    ensures v.startDate == s.startDate && v.startTime == s.startTime && v.endTime == s.endTime
    ensures v.priceCents == s.priceCents && v.capacity == s.capacity
    ensures v.activeCount == multiset(s.enrollments)[Active]
    ensures v.seatsRemaining >= 0 && (v.seatsRemaining == 0 <==> v.activeCount >= v.capacity)
  {
    var n := ActiveCount(s.enrollments);
    SectionView(s.id, s.location, s.day, s.groupLabel, s.startDate, s.startTime, s.endTime,
                s.priceCents, s.capacity, n, SeatsRemaining(s.capacity, n))
  }

  predicate IsActiveSection(s: SectionRecord)
  {
    s.isActive
  }

  /** The listed sections: one shaped row per active section, in query order. */
  function ListSections(table: seq<SectionRecord>): (r: seq<SectionView>)
    ensures |r| == |Filter(table, IsActiveSection)|
    ensures forall i :: 0 <= i < |r| ==> r[i] == Shape(Filter(table, IsActiveSection)[i])
  {
    ShapeAll(Filter(table, IsActiveSection))
  }

  function ShapeAll(rows: seq<SectionRecord>): (r: seq<SectionView>)
    ensures |r| == |rows|
    ensures forall i :: 0 <= i < |r| ==> r[i] == Shape(rows[i])
  {
    if rows == [] then [] else [Shape(rows[0])] + ShapeAll(rows[1..])
  }

  /** Every listed section comes from an active row and keeps its id and capacity. */
  lemma ListedSectionsAreActive(table: seq<SectionRecord>, i: int)
    requires 0 <= i < |ListSections(table)|
    ensures exists s :: s in table && s.isActive && s.id == ListSections(table)[i].id &&
                        ListSections(table)[i] == Shape(s)
  {
    var rows := Filter(table, IsActiveSection);
    assert rows[i] in multiset(rows);
    assert rows[i] in table;
  }

  /** An active section whose ACTIVE enrollments reach its capacity is listed, with no seats left. */
  lemma FullSectionHasNoSeats(table: seq<SectionRecord>, s: SectionRecord)
    requires s in table && s.isActive && multiset(s.enrollments)[Active] >= s.capacity
    ensures exists i :: 0 <= i < |ListSections(table)| && ListSections(table)[i] == Shape(s)
    ensures Shape(s).seatsRemaining == 0
  {
    var rows := Filter(table, IsActiveSection);
    assert s in multiset(table);
    assert s in multiset(rows);
    var i :| 0 <= i < |rows| && rows[i] == s;
    assert ListSections(table)[i] == Shape(s);
  }

  datatype SectionsResponse = SectionsResponse(status: int, sections: seq<SectionView>, error: Option<string>)

  /**
   * The handler. `query` is the outcome of `findMany`: `None` when it threw.
   * Anything but GET is answered 405 with no body (modelled as no sections).
   */
  function HandleSections(httpMethod: string, query: Option<seq<SectionRecord>>): (r: SectionsResponse)
    ensures httpMethod != "GET" ==> r.status == 405
    ensures httpMethod == "GET" && query.None? ==> r == SectionsResponse(500, [], Some("Internal error"))
    ensures httpMethod == "GET" && query.Some? ==> r.status == 200 && r.sections == ListSections(query.value)
    ensures r.status == 200 ==> forall i :: 0 <= i < |r.sections| ==> r.sections[i].seatsRemaining >= 0
  {
    if httpMethod != "GET" then SectionsResponse(405, [], None)
    else if query.None? then SectionsResponse(500, [], Some("Internal error"))
    else SectionsResponse(200, ListSections(query.value), None)
  }
}
