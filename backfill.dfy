/**
 * The enrollment backfill script (src/scripts/backfillEnrollments.ts): for
 * every student and every day it selected, find the first section at the
 * student's location on that day and upsert the (student, section)
 * enrollment. The enrollment table is an object whose rows the script
 * appends to; the student and section tables are inputs, in the order the
 * queries return them.
 */
module Backfill {
  import opened Domain
  import opened SectionsApi

  /** The `student` columns the script reads; `location` is `None` when the column is null. */
  datatype StudentRow = StudentRow(id: string, studentName: string, location: Option<Location>, selectedDays: seq<string>)

  datatype Enrollment = Enrollment(studentId: string, sectionId: string, status: EnrollmentStatus)

  /** The `findFirst` filter: same location and a day whose enum name is the stored day text. */
  predicate SectionMatches(sec: SectionRecord, location: Option<Location>, day: string)
  {
    location == Some(sec.location) && DayName(sec.day) == day
  }

  /** `classSection.findFirst`: the first matching section; label, session and the active flag play no part. */
  function FindSection(sections: seq<SectionRecord>, location: Option<Location>, day: string): (r: Option<SectionRecord>)
    ensures r.None? <==> forall i :: 0 <= i < |sections| ==> !SectionMatches(sections[i], location, day)
    ensures r.Some? ==> exists i :: 0 <= i < |sections| && sections[i] == r.value && SectionMatches(r.value, location, day) &&
                                    forall j :: 0 <= j < i ==> !SectionMatches(sections[j], location, day)
  {
    if sections == [] then None
    else if SectionMatches(sections[0], location, day) then Some(sections[0])
    else
      var r := FindSection(sections[1..], location, day);
      if r.Some? then
        var i :| 0 <= i < |sections[1..]| && sections[1..][i] == r.value && SectionMatches(r.value, location, day) &&
                 forall j :: 0 <= j < i ==> !SectionMatches(sections[1..][j], location, day);
        assert sections[i + 1] == r.value;
        assert forall j :: 0 <= j < i + 1 ==> !SectionMatches(sections[j], location, day) by {
          forall j | 0 <= j < i + 1
            ensures !SectionMatches(sections[j], location, day)
          {
            if j > 0 {
              assert sections[j] == sections[1..][j - 1];
            }
          }
        }
        r
      else
        assert forall i :: 1 <= i < |sections| ==> sections[i] == sections[1..][i - 1];
        r
  }

  /** Whether the table already holds an enrollment of this student in this section. */
  predicate HasPair(rows: seq<Enrollment>, studentId: string, sectionId: string)
  {
    exists i :: 0 <= i < |rows| && rows[i].studentId == studentId && rows[i].sectionId == sectionId
  }

  /** The unique key `studentId_sectionId`: no two rows share a (student, section) pair. */
  predicate UniquePairs(rows: seq<Enrollment>)
  {
    forall i, j :: 0 <= i < j < |rows| ==> rows[i].studentId != rows[j].studentId || rows[i].sectionId != rows[j].sectionId
  }

  /** `enrollment.upsert` with an empty update: an existing pair is left as it is, a new one is created ACTIVE. */
  function Upserted(rows: seq<Enrollment>, studentId: string, sectionId: string): (r: seq<Enrollment>)
    ensures HasPair(r, studentId, sectionId)
    ensures rows <= r && |r| <= |rows| + 1
    ensures |r| == |rows| + 1 <==> !HasPair(rows, studentId, sectionId)
  {
    if HasPair(rows, studentId, sectionId) then rows
    else
      var r := rows + [Enrollment(studentId, sectionId, Active)];
      assert r[|rows|].studentId == studentId && r[|rows|].sectionId == sectionId;
      r
  }

  /** One day of one student: skip when no section matches, otherwise upsert. */
  function BackfillDay(rows: seq<Enrollment>, s: StudentRow, day: string, sections: seq<SectionRecord>): (r: seq<Enrollment>)
    ensures rows <= r && |r| <= |rows| + 1
    ensures FindSection(sections, s.location, day).None? ==> r == rows
    ensures FindSection(sections, s.location, day).Some? ==> HasPair(r, s.id, FindSection(sections, s.location, day).value.id)
  {
    var sec := FindSection(sections, s.location, day);
    if sec.None? then rows else Upserted(rows, s.id, sec.value.id)
  }

  /** The inner loop, over the first `|days|` days of one student. */
  function BackfillDays(rows: seq<Enrollment>, s: StudentRow, days: seq<string>, sections: seq<SectionRecord>): (r: seq<Enrollment>)
    ensures rows <= r && |r| <= |rows| + |days|
  {
    if days == [] then rows
    else BackfillDay(BackfillDays(rows, s, days[..|days| - 1], sections), s, days[|days| - 1], sections)
  }

  /** The outer loop, over the students in order. */
  function BackfillStudents(rows: seq<Enrollment>, students: seq<StudentRow>, sections: seq<SectionRecord>): (r: seq<Enrollment>)
    ensures rows <= r
  {
    if students == [] then rows
    else
      var last := students[|students| - 1];
      BackfillDays(BackfillStudents(rows, students[..|students| - 1], sections), last, last.selectedDays, sections)
  }

  class EnrollmentTable {
    var rows: seq<Enrollment>

    constructor (initial: seq<Enrollment>)
      ensures rows == initial
    {
      rows := initial;
    }

    method Upsert(studentId: string, sectionId: string)
      modifies this
      ensures rows == Upserted(old(rows), studentId, sectionId)
    {
      if !HasPair(rows, studentId, sectionId) {
        rows := rows + [Enrollment(studentId, sectionId, Active)];
      }
    }

    /** `main`: the nested loop over the students and their selected days. */
    method Run(students: seq<StudentRow>, sections: seq<SectionRecord>)
      modifies this
      ensures rows == BackfillStudents(old(rows), students, sections)
    {
      var i := 0;
      while i < |students|
        invariant 0 <= i <= |students|
        invariant rows == BackfillStudents(old(rows), students[..i], sections)
      {
        var s := students[i];
        ghost var before := rows;
        var k := 0;
        while k < |s.selectedDays|
          invariant 0 <= k <= |s.selectedDays|
          invariant rows == BackfillDays(before, s, s.selectedDays[..k], sections)
        {
          var day := s.selectedDays[k];
          var sec := FindSection(sections, s.location, day);
          if sec.Some? {
            Upsert(s.id, sec.value.id);
          }
          assert s.selectedDays[..k + 1][..k] == s.selectedDays[..k];
          k := k + 1;
        }
        assert s.selectedDays[..k] == s.selectedDays;
        assert students[..i + 1][..i] == students[..i];
        i := i + 1;
      }
      assert students[..i] == students;
    }
  }

  // ---------------------------------------------------------------------
  // What the script does to the table

  /** The pairs one student's days ask for: the student with each day's first matching section. */
  ghost predicate WantedBy(s: StudentRow, days: seq<string>, sections: seq<SectionRecord>, studentId: string, sectionId: string)
  {
    s.id == studentId &&
    exists k :: 0 <= k < |days| && FindSection(sections, s.location, days[k]).Some? &&
                FindSection(sections, s.location, days[k]).value.id == sectionId
  }

  /** The pairs the whole run asks for. */
  ghost predicate Wanted(students: seq<StudentRow>, sections: seq<SectionRecord>, studentId: string, sectionId: string)
  {
    exists i :: 0 <= i < |students| && WantedBy(students[i], students[i].selectedDays, sections, studentId, sectionId)
  }

  /** A day with no matching section writes nothing. */
  lemma NoSectionSkips(rows: seq<Enrollment>, s: StudentRow, day: string, sections: seq<SectionRecord>)
    requires forall i :: 0 <= i < |sections| ==> !SectionMatches(sections[i], s.location, day)
    ensures BackfillDay(rows, s, day, sections) == rows
  {
  }

  /** An upsert adds its pair and no other. */
  lemma UpsertedPairs(rows: seq<Enrollment>, studentId: string, sectionId: string, st: string, sec: string)
    ensures HasPair(Upserted(rows, studentId, sectionId), st, sec) <==>
            HasPair(rows, st, sec) || (st == studentId && sec == sectionId)
  {
    var r := Upserted(rows, studentId, sectionId);
    if HasPair(r, st, sec) && !(st == studentId && sec == sectionId) {
      var i :| 0 <= i < |r| && r[i].studentId == st && r[i].sectionId == sec;
      assert i < |rows| && rows[i] == r[i];
    }
    if HasPair(rows, st, sec) {
      var i :| 0 <= i < |rows| && rows[i].studentId == st && rows[i].sectionId == sec;
      assert r[i] == rows[i];
    }
  }

  /** An upsert keeps the key unique. */
  lemma UpsertKeepsUnique(rows: seq<Enrollment>, studentId: string, sectionId: string)
    requires UniquePairs(rows)
    ensures UniquePairs(Upserted(rows, studentId, sectionId))
  {
  }

  /** The inner loop writes exactly the pairs its days ask for. */
  lemma {:induction false} BackfillDaysPairs(rows: seq<Enrollment>, s: StudentRow, days: seq<string>, sections: seq<SectionRecord>,
                                             st: string, sec: string)
    ensures HasPair(BackfillDays(rows, s, days, sections), st, sec) <==>
            HasPair(rows, st, sec) || WantedBy(s, days, sections, st, sec)
    decreases |days|
  {
    if days != [] {
      var init, last := days[..|days| - 1], days[|days| - 1];
      var mid := BackfillDays(rows, s, init, sections);
      BackfillDaysPairs(rows, s, init, sections, st, sec);
      var found := FindSection(sections, s.location, last);
      if found.Some? {
        UpsertedPairs(mid, s.id, found.value.id, st, sec);
      }
      WantedBySnoc(s, days, sections, st, sec);
    }
  }

  /** The pairs `days` asks for: those of all days but the last, and the last day's. */
  lemma WantedBySnoc(s: StudentRow, days: seq<string>, sections: seq<SectionRecord>, st: string, sec: string)
    requires days != []
    ensures var found := FindSection(sections, s.location, days[|days| - 1]);
            WantedBy(s, days, sections, st, sec) <==>
            WantedBy(s, days[..|days| - 1], sections, st, sec) || (s.id == st && found.Some? && found.value.id == sec)
  {
    var init := days[..|days| - 1];
    if WantedBy(s, days, sections, st, sec) {
      var k :| 0 <= k < |days| && FindSection(sections, s.location, days[k]).Some? &&
               FindSection(sections, s.location, days[k]).value.id == sec;
      if k < |days| - 1 {
        assert init[k] == days[k];
      }
    }
    if WantedBy(s, init, sections, st, sec) {
      var k :| 0 <= k < |init| && FindSection(sections, s.location, init[k]).Some? &&
               FindSection(sections, s.location, init[k]).value.id == sec;
      assert days[k] == init[k];
    }
  }

  /** The whole run ends with exactly the pairs that were there and the pairs it asks for. */
  lemma {:induction false} BackfillPairs(rows: seq<Enrollment>, students: seq<StudentRow>, sections: seq<SectionRecord>,
                                         st: string, sec: string)
    ensures HasPair(BackfillStudents(rows, students, sections), st, sec) <==>
            HasPair(rows, st, sec) || Wanted(students, sections, st, sec)
    decreases |students|
  {
    if students != [] {
      var init, last := students[..|students| - 1], students[|students| - 1];
      BackfillPairs(rows, init, sections, st, sec);
      BackfillDaysPairs(BackfillStudents(rows, init, sections), last, last.selectedDays, sections, st, sec);
      if Wanted(students, sections, st, sec) {
        var i :| 0 <= i < |students| && WantedBy(students[i], students[i].selectedDays, sections, st, sec);
        if i < |students| - 1 {
          assert init[i] == students[i];
        }
      }
      if Wanted(init, sections, st, sec) {
        var i :| 0 <= i < |init| && WantedBy(init[i], init[i].selectedDays, sections, st, sec);
        assert students[i] == init[i];
      }
    }
  }

  /** The inner loop deletes and changes nothing: the old table is a prefix, and what it adds is ACTIVE and unique. */
  lemma {:induction false} BackfillDaysGrows(rows: seq<Enrollment>, s: StudentRow, days: seq<string>, sections: seq<SectionRecord>)
    requires UniquePairs(rows)
    ensures var r := BackfillDays(rows, s, days, sections);
            rows <= r && UniquePairs(r) && forall i :: |rows| <= i < |r| ==> r[i].status == Active
    decreases |days|
  {
    if days != [] {
      var init := days[..|days| - 1];
      BackfillDaysGrows(rows, s, init, sections);
      var found := FindSection(sections, s.location, days[|days| - 1]);
      if found.Some? {
        UpsertKeepsUnique(BackfillDays(rows, s, init, sections), s.id, found.value.id);
      }
    }
  }

  /**
   * The run never deletes or changes an enrollment, keeps the key unique,
   * and everything it adds is ACTIVE.
   */
  lemma {:induction false} BackfillGrows(rows: seq<Enrollment>, students: seq<StudentRow>, sections: seq<SectionRecord>)
    requires UniquePairs(rows)
    ensures var r := BackfillStudents(rows, students, sections);
            rows <= r && UniquePairs(r) && forall i :: |rows| <= i < |r| ==> r[i].status == Active
    decreases |students|
  {
    if students != [] {
      var init, last := students[..|students| - 1], students[|students| - 1];
      BackfillGrows(rows, init, sections);
      BackfillDaysGrows(BackfillStudents(rows, init, sections), last, last.selectedDays, sections);
    }
  }

  /** When every pair the days ask for is present, the inner loop writes nothing. */
  lemma {:induction false} BackfillDaysNoop(rows: seq<Enrollment>, s: StudentRow, days: seq<string>, sections: seq<SectionRecord>)
    requires forall st, sec :: WantedBy(s, days, sections, st, sec) ==> HasPair(rows, st, sec)
    ensures BackfillDays(rows, s, days, sections) == rows
    decreases |days|
  {
    if days != [] {
      var init, last := days[..|days| - 1], days[|days| - 1];
      forall st, sec | WantedBy(s, init, sections, st, sec)
        ensures HasPair(rows, st, sec)
      {
        var k :| 0 <= k < |init| && FindSection(sections, s.location, init[k]).Some? &&
                 FindSection(sections, s.location, init[k]).value.id == sec;
        assert days[k] == init[k];
        assert WantedBy(s, days, sections, st, sec);
      }
      BackfillDaysNoop(rows, s, init, sections);
      var found := FindSection(sections, s.location, last);
      if found.Some? {
        assert WantedBy(s, days, sections, s.id, found.value.id);
      }
    }
  }

  /** When every pair the run asks for is present, the run writes nothing. */
  lemma {:induction false} BackfillNoop(rows: seq<Enrollment>, students: seq<StudentRow>, sections: seq<SectionRecord>)
    requires forall st, sec :: Wanted(students, sections, st, sec) ==> HasPair(rows, st, sec)
    ensures BackfillStudents(rows, students, sections) == rows
    decreases |students|
  {
    if students != [] {
      var init, last := students[..|students| - 1], students[|students| - 1];
      forall st, sec | Wanted(init, sections, st, sec)
        ensures HasPair(rows, st, sec)
      {
        var i :| 0 <= i < |init| && WantedBy(init[i], init[i].selectedDays, sections, st, sec);
        assert students[i] == init[i];
        assert Wanted(students, sections, st, sec);
      }
      BackfillNoop(rows, init, sections);
      forall st, sec | WantedBy(last, last.selectedDays, sections, st, sec)
        ensures HasPair(rows, st, sec)
      {
        assert Wanted(students, sections, st, sec);
      }
      BackfillDaysNoop(rows, last, last.selectedDays, sections);
    }
  }

  /** Running the script a second time on the same data leaves the table as the first run left it. */
  lemma Idempotent(rows: seq<Enrollment>, students: seq<StudentRow>, sections: seq<SectionRecord>)
    ensures var once := BackfillStudents(rows, students, sections);
            BackfillStudents(once, students, sections) == once
  {
    var once := BackfillStudents(rows, students, sections);
    forall st, sec | Wanted(students, sections, st, sec)
      ensures HasPair(once, st, sec)
    {
      BackfillPairs(rows, students, sections, st, sec);
    }
    BackfillNoop(once, students, sections);
  }
}
