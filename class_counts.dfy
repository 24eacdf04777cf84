/**
 * GET /api/classCounts (src/pages/api/classCounts.ts): the legacy per
 * (location, day) head count. Each student row counts once on each day it
 * lists; afterwards the days a location does not teach are zeroed. The
 * student query (already restricted to one session) is an input.
 */
module ClassCounts {
  import opened Domain

  /** The two fields the query selects from a student row. */
  datatype StudentDays = StudentDays(location: Option<string>, selectedDays: seq<string>)

  datatype Cell = Cell(loc: Location, day: Day)

  type Counts = map<Cell, int>

  /** Whether a count record holds every (location, day) cell. */
  ghost predicate Complete(counts: Counts)
  {
    forall c: Cell :: c in counts
  }

  /** The zeroed structure the handler starts from. */
  function Zeroed(): (counts: Counts)
    ensures Complete(counts) && forall c :: c in counts ==> counts[c] == 0
  {
    var m := map[Cell(Katy, Monday) := 0, Cell(Katy, Tuesday) := 0, Cell(Katy, Wednesday) := 0, Cell(Katy, Thursday) := 0,
                 Cell(SugarLand, Monday) := 0, Cell(SugarLand, Tuesday) := 0, Cell(SugarLand, Wednesday) := 0, Cell(SugarLand, Thursday) := 0];
    assert forall c: Cell :: c in m by {
      forall c: Cell ensures c in m {
        CellCases(c);
      }
    }
    m
  }

  lemma CellCases(c: Cell)
    ensures c.loc == AllLocations[LocIndex(c.loc)] && c.day == AllDays[DayIndex(c.day)]
    ensures LocIndex(c.loc) < 2 && DayIndex(c.day) < 4
  {
  }

  /** The location a row is counted under: none for a falsy or unknown location. */
  function CountedLocation(s: StudentDays): Option<Location>
  {
    if s.location.None? || s.location.value == "" then None else ParseLocation(s.location.value)
  }

  /** How many entries of `days` name `day` (duplicates count each time). */
  function Occurrences(days: seq<string>, day: Day): nat
  {
    if days == [] then 0
    else Occurrences(days[..|days| - 1], day) + (if days[|days| - 1] == DayName(day) then 1 else 0)
  }

  /** What one student adds to a cell. */
  function Contribution(s: StudentDays, c: Cell): nat
  {
    if CountedLocation(s) == Some(c.loc) then Occurrences(s.selectedDays, c.day) else 0
  }

  /** The first pass's total for a cell over the given students. */
  function Tally(students: seq<StudentDays>, c: Cell): nat
  {
    if students == [] then 0
    else Tally(students[..|students| - 1], c) + Contribution(students[|students| - 1], c)
  }

  /** The published count: the tally on a class day of the location, zero on the others. */
  function Expected(students: seq<StudentDays>, c: Cell): nat
  {
    if IsClassDay(c.loc, c.day) then Tally(students, c) else 0
  }

  function LocIndex(l: Location): nat
  {
    match l
    case Katy => 0
    case SugarLand => 1
  }

  function DayIndex(d: Day): nat
  {
    match d
    case Monday => 0
    case Tuesday => 1
    case Wednesday => 2
    case Thursday => 3
  }

  /** Whether the zeroing pass has visited a cell before position (a, b) of its nested loops. */
  predicate Visited(a: nat, b: nat, c: Cell)
  {
    LocIndex(c.loc) < a || (LocIndex(c.loc) == a && DayIndex(c.day) < b)
  }

  /** The handler's two loops. */
  method CountClasses(students: seq<StudentDays>) returns (counts: Counts)
    ensures Complete(counts)
    ensures forall c :: c in counts ==> counts[c] == Expected(students, c)
  {
    counts := Zeroed();
    // Count each student on each day it attends.
    var i := 0;
    while i < |students|
      invariant 0 <= i <= |students|
      invariant Complete(counts)
      invariant forall c :: c in counts ==> counts[c] == Tally(students[..i], c)
    {
      var s := students[i];
      assert students[..i + 1][..i] == students[..i];
      if s.location.Some? && s.location.value != "" {
        var loc := ParseLocation(s.location.value);
        if loc.Some? {
          counts := CountStudentDays(counts, s, loc.value, students[..i]);
        }
      }
      i := i + 1;
    }
    assert students[..i] == students;
    counts := ZeroNonClassDays(counts, students);
  }

  /** The inner loop of the first pass: one increment per recognised day of one student. */
  method CountStudentDays(counts0: Counts, s: StudentDays, loc: Location, before: seq<StudentDays>) returns (counts: Counts)
    requires Complete(counts0) && CountedLocation(s) == Some(loc)
    requires forall c :: c in counts0 ==> counts0[c] == Tally(before, c)
    ensures Complete(counts)
    ensures forall c :: c in counts ==> counts[c] == Tally(before + [s], c)
  {
    counts := counts0;
    var j := 0;
    assert s.selectedDays[..0] == [];
    while j < |s.selectedDays|
      invariant 0 <= j <= |s.selectedDays|
      invariant Complete(counts)
      invariant CountedUpTo(counts, before, loc, s.selectedDays, j)
    {
      ghost var prev := counts;
      counts := Bump(counts, loc, s.selectedDays[j]);
      CountStep(prev, counts, before, loc, s.selectedDays, j);
      j := j + 1;
    }
    TallyStep(counts, before, s, loc);
  }

  /** `counts[loc][day] += 1` when the day text names one of the four days; other texts change nothing. */
  method Bump(counts0: Counts, loc: Location, dayText: string) returns (counts: Counts)
    requires Complete(counts0)
    ensures Complete(counts)
    ensures forall c :: c in counts ==> counts[c] == counts0[c] + (if c.loc == loc && dayText == DayName(c.day) then 1 else 0)
  {
    counts := counts0;
    var day := ParseDay(dayText);
    if day.Some? {
      counts := counts[Cell(loc, day.value) := counts[Cell(loc, day.value)] + 1];
    }
  }

  /** The inner loop's invariant after `j` days. */
  predicate CountedUpTo(counts: Counts, before: seq<StudentDays>, loc: Location, days: seq<string>, j: int)
    requires 0 <= j <= |days|
  {
    forall c :: c in counts ==> counts[c] == Tally(before, c) + (if c.loc == loc then Occurrences(days[..j], c.day) else 0)
  }

  /** One step of the inner loop keeps its invariant. */
  lemma CountStep(prev: Counts, counts: Counts, before: seq<StudentDays>, loc: Location, days: seq<string>, j: int)
    requires 0 <= j < |days| && Complete(prev) && CountedUpTo(prev, before, loc, days, j)
    requires forall c :: c in counts ==> counts[c] == prev[c] + (if c.loc == loc && days[j] == DayName(c.day) then 1 else 0)
    ensures CountedUpTo(counts, before, loc, days, j + 1)
  {
    assert days[..j + 1][..j] == days[..j];
  }

  /** After all of one student's days, the counts are the tally with that student added. */
  lemma TallyStep(counts: Counts, before: seq<StudentDays>, s: StudentDays, loc: Location)
    requires CountedLocation(s) == Some(loc) && CountedUpTo(counts, before, loc, s.selectedDays, |s.selectedDays|)
    ensures forall c :: c in counts ==> counts[c] == Tally(before + [s], c)
  {
    assert s.selectedDays[..|s.selectedDays|] == s.selectedDays;
    assert (before + [s])[..|before + [s]| - 1] == before;
  }

  /** The second pass: the days a location does not teach are set to zero. */
  method ZeroNonClassDays(counts0: Counts, students: seq<StudentDays>) returns (counts: Counts)
    requires Complete(counts0)
    requires forall c :: c in counts0 ==> counts0[c] == Tally(students, c)
    ensures Complete(counts)
    ensures forall c :: c in counts ==> counts[c] == Expected(students, c)
  {
    counts := counts0;
    var a := 0;
    while a < |AllLocations|
      invariant 0 <= a <= |AllLocations|
      invariant Complete(counts)
      invariant forall c :: c in counts ==>
        counts[c] == if Visited(a, 0, c) && !IsClassDay(c.loc, c.day) then 0 else Tally(students, c)
    {
      var loc := AllLocations[a];
      assert LocIndex(loc) == a;
      var b := 0;
      while b < |AllDays|
        invariant 0 <= b <= |AllDays|
        invariant Complete(counts)
        invariant forall c :: c in counts ==>
          counts[c] == if Visited(a, b, c) && !IsClassDay(c.loc, c.day) then 0 else Tally(students, c)
      {
        var day := AllDays[b];
        assert DayIndex(day) == b;
        if !IsClassDay(loc, day) {
          counts := counts[Cell(loc, day) := 0];
        }
        forall c | c in counts
          ensures counts[c] == if Visited(a, b + 1, c) && !IsClassDay(c.loc, c.day) then 0 else Tally(students, c)
        {
          CellCases(c);
        }
        b := b + 1;
      }
      forall c | c in counts
        ensures counts[c] == if Visited(a + 1, 0, c) && !IsClassDay(c.loc, c.day) then 0 else Tally(students, c)
      {
        CellCases(c);
      }
      a := a + 1;
    }
    forall c | c in counts
      ensures counts[c] == Expected(students, c)
    {
      CellCases(c);
    }
  }

  /** Occurrences add up over concatenation. */
  lemma {:induction false} OccurrencesConcat(xs: seq<string>, ys: seq<string>, day: Day)
    ensures Occurrences(xs + ys, day) == Occurrences(xs, day) + Occurrences(ys, day)
    decreases |ys|
  {
    if ys == [] {
      assert xs + ys == xs;
    } else {
      assert (xs + ys)[..|xs + ys| - 1] == xs + ys[..|ys| - 1];
      OccurrencesConcat(xs, ys[..|ys| - 1], day);
    }
  }

  /** All the days listed by the students counted at `loc`, one after another. */
  function DaysAt(students: seq<StudentDays>, loc: Location): seq<string>
  {
    if students == [] then []
    else
      var last := students[|students| - 1];
      DaysAt(students[..|students| - 1], loc) + (if CountedLocation(last) == Some(loc) then last.selectedDays else [])
  }

  /**
   * The tally of a cell is the number of times its day appears among the days
   * of that location's students: a student is counted once per listed day.
   */
  lemma {:induction false} TallyCountsDaysAtLocation(students: seq<StudentDays>, c: Cell)
    ensures Tally(students, c) == Occurrences(DaysAt(students, c.loc), c.day)
  {
    if students != [] {
      var init := students[..|students| - 1];
      var last := students[|students| - 1];
      TallyCountsDaysAtLocation(init, c);
      OccurrencesConcat(DaysAt(init, c.loc), if CountedLocation(last) == Some(c.loc) then last.selectedDays else [], c.day);
    }
  }

  /** A row with a falsy or unknown location, or with no recognised day, adds nothing to any cell. */
  lemma IgnoredStudentAddsNothing(students: seq<StudentDays>, s: StudentDays, c: Cell)
    requires CountedLocation(s).None? || forall k :: 0 <= k < |s.selectedDays| ==> ParseDay(s.selectedDays[k]).None?
    ensures Tally(students + [s], c) == Tally(students, c)
  {
    assert (students + [s])[..|students + [s]| - 1] == students;
    if CountedLocation(s).Some? {
      NoRecognisedDay(s.selectedDays, c.day);
    }
  }

  lemma {:induction false} NoRecognisedDay(days: seq<string>, day: Day)
    requires forall k :: 0 <= k < |days| ==> ParseDay(days[k]).None?
    ensures Occurrences(days, day) == 0
  {
    if days != [] {
      assert ParseDay(days[|days| - 1]).None?;
      NoRecognisedDay(days[..|days| - 1], day);
    }
  }

  /** A Katy student listing Tuesday twice is counted twice on Tuesday. */
  lemma DuplicateDaysCountTwice()
    ensures Expected([StudentDays(Some("KATY"), ["Tuesday", "Tuesday"])], Cell(Katy, Tuesday)) == 2
  {
    var days := ["Tuesday", "Tuesday"];
    assert days[..|days| - 1] == ["Tuesday"];
    assert ["Tuesday"][..0] == [];
    assert Occurrences(["Tuesday"], Tuesday) == 1;
    assert Occurrences(days, Tuesday) == 2;
    var students := [StudentDays(Some("KATY"), days)];
    assert students[..0] == [];
    assert CountedLocation(students[0]) == Some(Katy);
  }
}
