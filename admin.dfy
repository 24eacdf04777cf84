/**
 * The admin dashboard's state (src/pages/admin.tsx): the sort settings and
 * the sorted and paid views of the student list, the map of unsaved cell
 * edits, the calendar's tile marks and the custom-event list. React state
 * is an object whose fields the handlers replace. `localeCompare` and the
 * `Date` conversions to a date string are inputs.
 */
module Admin {
  import opened Domain
  import opened Text
  import opened Seqs
  import opened Sorting

  /** A row of the student table as the page receives it. */
  datatype Student = Student(
    id: string,
    studentName: string,
    age: int,
    parentName: string,
    phone: string,
    email: string,
    location: Location,
    frequency: string,
    selectedDays: seq<string>,
    startDate: string,
    paymentStatus: PaymentStatus)

  /** The nine columns of the table, each a sortable and editable key of a student. */
  datatype Key =
    | StudentNameKey | AgeKey | ParentNameKey | PhoneKey | EmailKey
    | LocationKey | FrequencyKey | PaymentStatusKey | StartDateKey

  datatype Direction = Asc | Desc

  datatype SortConfig = SortConfig(key: Key, direction: Direction)

  /** A value typed into a cell: the age column holds a number, every other a string. */
  datatype Value = Text(text: string) | Number(number: int)

  datatype CustomEvent = CustomEvent(date: string, note: string)

  // ---------------------------------------------------------------------
  // Sorting

  /** `requestSort(key)`: a second click on the same ascending column turns it descending. */
  function NextSort(config: Option<SortConfig>, key: Key): (r: SortConfig)
    ensures r.key == key
    ensures r.direction == Desc <==> config == Some(SortConfig(key, Asc))
  {
    if config.Some? && config.value.key == key && config.value.direction == Asc then SortConfig(key, Desc)
    else SortConfig(key, Asc)
  }

  /** `String(a[key])` for a non-numeric column. */
  function KeyText(s: Student, key: Key): string
  {
    match key
    case StudentNameKey => s.studentName
    case AgeKey => IntToString(s.age)
    case ParentNameKey => s.parentName
    case PhoneKey => s.phone
    case EmailKey => s.email
    case LocationKey => LocationName(s.location)
    case FrequencyKey => s.frequency
    case PaymentStatusKey => PaymentStatusName(s.paymentStatus)
    case StartDateKey => s.startDate
  }

  /** The comparator of `sortedStudents`: numeric difference on the age column, `localeCompare` on the others. */
  function Compare(config: SortConfig, localeCompare: (string, string) -> int, a: Student, b: Student): (r: int)
    ensures config.key == AgeKey ==>
      (r == 0 <==> a.age == b.age) && (r < 0 <==> if config.direction == Asc then a.age < b.age else a.age > b.age)
  {
    if config.key == AgeKey then
      (if config.direction == Asc then a.age - b.age else b.age - a.age)
    else if config.direction == Asc then localeCompare(KeyText(a, config.key), KeyText(b, config.key))
    else localeCompare(KeyText(b, config.key), KeyText(a, config.key))
  }

  /** A descending sort compares the two students the other way round. */
  lemma DescendingSwaps(key: Key, localeCompare: (string, string) -> int, a: Student, b: Student)
    ensures Compare(SortConfig(key, Desc), localeCompare, a, b) == Compare(SortConfig(key, Asc), localeCompare, b, a)
  {
  }

  function Comparator(config: SortConfig, localeCompare: (string, string) -> int): (Student, Student) -> int
  {
    (a: Student, b: Student) => Compare(config, localeCompare, a, b)
  }

  /** `sortedStudents`: the list itself with no sort set, otherwise a sorted copy. */
  function SortedStudents(students: seq<Student>, config: Option<SortConfig>, localeCompare: (string, string) -> int): (r: seq<Student>)
    ensures multiset(r) == multiset(students)
    ensures config.None? ==> r == students
  {
    if config.None? then students else SortBy(students, Comparator(config.value, localeCompare))
  }

  /** A `localeCompare` never reports both `a` after `b` and `b` after `a`. */
  lemma ComparatorAntisymmetric(config: SortConfig, localeCompare: (string, string) -> int)
    requires Antisymmetric(localeCompare)
    ensures Antisymmetric(Comparator(config, localeCompare))
  {
    forall a: Student, b: Student | Comparator(config, localeCompare)(a, b) > 0
      ensures Comparator(config, localeCompare)(b, a) <= 0
    {
      if config.key != AgeKey {
        var ta, tb := KeyText(a, config.key), KeyText(b, config.key);
        if config.direction == Asc {
          assert localeCompare(ta, tb) > 0;
        } else {
          assert localeCompare(tb, ta) > 0;
        }
      }
    }
  }

  /** With a sort set, every neighbouring pair of the view is in the comparator's order. */
  lemma SortedStudentsOrdered(students: seq<Student>, config: SortConfig, localeCompare: (string, string) -> int)
    requires Antisymmetric(localeCompare)
    ensures var r := SortedStudents(students, Some(config), localeCompare);
            forall i :: 0 <= i < |r| - 1 ==> Compare(config, localeCompare, r[i], r[i + 1]) <= 0
  {
    ComparatorAntisymmetric(config, localeCompare);
    SortBySorted(students, Comparator(config, localeCompare));
  }

  /** Sorting by age ascending gives non-decreasing ages; descending gives non-increasing ones. */
  lemma AgeSortOrder(students: seq<Student>, direction: Direction, localeCompare: (string, string) -> int)
    ensures var r := SortedStudents(students, Some(SortConfig(AgeKey, direction)), localeCompare);
            forall i :: 0 <= i < |r| - 1 ==> if direction == Asc then r[i].age <= r[i + 1].age else r[i].age >= r[i + 1].age
  {
    var config := SortConfig(AgeKey, direction);
    var cmp := Comparator(config, localeCompare);
    assert Antisymmetric(cmp) by {
      forall a: Student, b: Student | cmp(a, b) > 0
        ensures cmp(b, a) <= 0
      {
      }
    }
    SortBySorted(students, cmp);
  }

  // ---------------------------------------------------------------------
  // The paid view

  function IsPaid(): Student -> bool
  {
    (s: Student) => s.paymentStatus == Paid
  }

  /** `paidStudents`: the PAID students of the sorted view, each as often as there. */
  function PaidStudents(sorted: seq<Student>): (r: seq<Student>)
    ensures forall i :: 0 <= i < |r| ==> r[i].paymentStatus == Paid
    ensures forall s :: multiset(r)[s] == if s.paymentStatus == Paid then multiset(sorted)[s] else 0
  {
    Filter(sorted, IsPaid())
  }

  /** The paid view keeps the order of the sorted view: it splits along any cut of it. */
  lemma PaidStudentsKeepsOrder(front: seq<Student>, back: seq<Student>)
    ensures PaidStudents(front + back) == PaidStudents(front) + PaidStudents(back)
  {
    FilterConcat(front, back, IsPaid());
  }

  // ---------------------------------------------------------------------
  // Cell edits

  /** `handleChange`: the edit map with one cell of one student set. */
  function Edit(edited: map<string, map<Key, Value>>, id: string, key: Key, value: Value): (r: map<string, map<Key, Value>>)
    ensures r.Keys == edited.Keys + {id}
    ensures id in r && key in r[id] && r[id][key] == value
    ensures forall k :: k != key ==> ((k in r[id]) <==> (id in edited && k in edited[id]))
    ensures forall k :: k != key && k in r[id] ==> r[id][k] == edited[id][k]
    ensures forall other :: other in edited && other != id ==> r[other] == edited[other]
  {
    var cells := if id in edited then edited[id] else map[];
    edited[id := cells[key := value]]
  }

  /** The original value of a cell. */
  function Own(s: Student, key: Key): Value
  {
    if key == AgeKey then Number(s.age) else Text(KeyText(s, key))
  }

  /** `t.substring(0, n)`. */
  function FirstChars(t: string, n: nat): (r: string)
    ensures |r| == if |t| < n then |t| else n
    ensures r == t[..|r|]
  {
    if |t| < n then t else t[..n]
  }

  /** The value a cell holds: `edited[s.id]?.key ?? s.key`. */
  function CellValue(edited: map<string, map<Key, Value>>, s: Student, key: Key): Value
  {
    if s.id in edited && key in edited[s.id] then edited[s.id][key] else Own(s, key)
  }

  /** How a cell's input displays a value: the start-date input shows its first ten characters. */
  function Display(key: Key, v: Value): Value
  {
    if key == StartDateKey && v.Text? then Text(FirstChars(v.text, 10)) else v
  }

  /**
   * What a cell shows: its value, cut to the first ten characters (the
   * `YYYY-MM-DD` part) in the start-date column.
   */
  function Shown(edited: map<string, map<Key, Value>>, s: Student, key: Key): (r: Value)
    ensures key != StartDateKey ==> r == CellValue(edited, s, key)
    ensures key == StartDateKey ==> r.Text? == CellValue(edited, s, key).Text?
    ensures key == StartDateKey && r.Text? ==>
      var t := CellValue(edited, s, key).text;
      |r.text| == (if |t| < 10 then |t| else 10) && r.text == t[..|r.text|]
  {
    Display(key, CellValue(edited, s, key))
  }

  /** After an edit the edited cell shows the new value and every other cell shows what it showed. */
  lemma EditShown(edited: map<string, map<Key, Value>>, id: string, key: Key, value: Value, s: Student, k: Key)
    ensures Shown(Edit(edited, id, key, value), s, k) ==
            if s.id == id && k == key then Display(key, value) else Shown(edited, s, k)
  {
  }

  // ---------------------------------------------------------------------
  // The calendar

  /**
   * `tileClassName`: in month view, a class start date marks the tile as a
   * start before a custom event can mark it; other views get no mark.
   * `dateText` is the tile's `toDateString()`; `startDateText` converts a
   * stored start date the same way.
   */
  function TileClassName(view: string, dateText: string, students: seq<Student>, startDateText: string -> string,
                         customEvents: seq<CustomEvent>): (r: Option<string>)
    ensures r.Some? ==> view == "month"
    ensures r == Some("highlight-start") <==> view == "month" && exists i :: 0 <= i < |students| && startDateText(students[i].startDate) == dateText
    ensures r == Some("highlight-event") <==>
            view == "month" && (forall i :: 0 <= i < |students| ==> startDateText(students[i].startDate) != dateText) &&
            exists j :: 0 <= j < |customEvents| && customEvents[j].date == dateText
  {
    if view != "month" then None
    else if exists i :: 0 <= i < |students| && startDateText(students[i].startDate) == dateText then Some("highlight-start")
    else if exists j :: 0 <= j < |customEvents| && customEvents[j].date == dateText then Some("highlight-event")
    else None
  }

  // ---------------------------------------------------------------------
  // The page state

  class AdminState {
    var students: seq<Student>
    var sortConfig: Option<SortConfig>
    var edited: map<string, map<Key, Value>>
    var customEvents: seq<CustomEvent>
    var eventNote: string
    var isModalOpen: bool

    /** The state after the students are fetched: no sort, no edits, no events. */
    constructor (fetched: seq<Student>)
      ensures students == fetched && sortConfig == None && edited == map[]
      ensures customEvents == [] && eventNote == "" && !isModalOpen
    {
      students := fetched;
      sortConfig := None;
      edited := map[];
      customEvents := [];
      eventNote := "";
      isModalOpen := false;
    }

    method RequestSort(key: Key)
      modifies this
      ensures sortConfig == Some(NextSort(old(sortConfig), key))
      ensures students == old(students) && edited == old(edited) && customEvents == old(customEvents)
      ensures eventNote == old(eventNote) && isModalOpen == old(isModalOpen)
    {
      var direction := Asc;
      if sortConfig.Some? && sortConfig.value.key == key && sortConfig.value.direction == Asc {
        direction := Desc;
      }
      sortConfig := Some(SortConfig(key, direction));
    }

    method HandleChange(id: string, key: Key, value: Value)
      modifies this
      ensures edited == Edit(old(edited), id, key, value)
      ensures students == old(students) && sortConfig == old(sortConfig) && customEvents == old(customEvents)
      ensures eventNote == old(eventNote) && isModalOpen == old(isModalOpen)
    {
      var cells := if id in edited then edited[id] else map[];
      edited := edited[id := cells[key := value]];
    }

    /**
     * Save Event: a note that is not blank is appended, trimmed, with the
     * chosen date, and the modal closes with the note cleared; a blank note
     * changes nothing.
     */
    method SaveEvent(eventDateText: string)
      modifies this
      ensures !AllWhitespace(old(eventNote)) ==>
        customEvents == old(customEvents) + [CustomEvent(eventDateText, Trim(old(eventNote)))] &&
        eventNote == "" && !isModalOpen
      ensures AllWhitespace(old(eventNote)) ==>
        customEvents == old(customEvents) && eventNote == old(eventNote) && isModalOpen == old(isModalOpen)
      ensures students == old(students) && sortConfig == old(sortConfig) && edited == old(edited)
    {
      var note := Trim(eventNote);
      TrimEmptyIff(eventNote);
      if note != [] {
        customEvents := customEvents + [CustomEvent(eventDateText, note)];
        eventNote := "";
        isModalOpen := false;
      }
    }
  }
}
