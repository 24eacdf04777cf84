/**
 * The availability rules of the registration page (src/pages/index.tsx),
 * lifted out of the component: each takes the page state it reads
 * (`classCounts`, `sections`) as a parameter. Katy uses the legacy
 * day-level head count against a fixed cap; Sugar Land uses the
 * seats-remaining figure of each concrete section.
 * `localeCompare` is an input (`compare`) because its order is the
 * browser's; the label order is stated for any comparator that never
 * orders two labels both ways.
 */
module Availability {
  import opened Domain
  import opened Seqs
  import opened Text
  import opened Sorting
  import opened SectionsApi
  import opened ClassCounts

  /** `MAX_CLASS_SIZE`: the head-count cap of a Katy class day. */
  const MaxClassSize := 22

  /** `classCounts[loc]?.[day] ?? 0`. */
  function CountAt(counts: Counts, loc: Location, day: Day): int
  {
    if Cell(loc, day) in counts then counts[Cell(loc, day)] else 0
  }

  /** `remainingFor`: the seats left on a Katy class day; never negative. */
  function RemainingFor(counts: Counts, loc: Location, day: Day): (r: int)
    ensures r >= 0
    ensures r == 0 <==> CountAt(counts, loc, day) >= MaxClassSize
    ensures r > 0 ==> CountAt(counts, loc, day) + r == MaxClassSize
  {
    Max(0, MaxClassSize - CountAt(counts, loc, day))
  }

  /** `isSoldOut`: no seat left, which is exactly a head count at or above the cap. */
  predicate IsSoldOut(counts: Counts, loc: Location, day: Day)
    ensures IsSoldOut(counts, loc, day) <==> CountAt(counts, loc, day) >= MaxClassSize
  {
    RemainingFor(counts, loc, day) == 0
  }

  /** `lowSpotsMsg`: a warning shown only when one to five seats are left. */
  function LowSpotsMsg(counts: Counts, loc: Location, day: Day): (msg: string)
    ensures msg != "" <==> 1 <= RemainingFor(counts, loc, day) <= 5
    ensures RemainingFor(counts, loc, day) == 1 ==> msg == "Hurry! only 1 spot left!"
    ensures 2 <= RemainingFor(counts, loc, day) <= 5 ==>
      msg == "Hurry! only " + NatToString(RemainingFor(counts, loc, day)) + " spots left!"
  {
    var r := RemainingFor(counts, loc, day);
    if r > 0 && r <= 5 then "Hurry! only " + NatToString(r) + " spot" + (if r == 1 then "" else "s") + " left!"
    else ""
  }

  predicate AtSugarLandOn(s: SectionView, day: Day)
  {
    s.location == SugarLand && s.day == day
  }

  /** The label comparator `(a, b) => a.label.localeCompare(b.label)`. */
  function LabelOrder(compare: (string, string) -> int): (SectionView, SectionView) -> int
  {
    (a: SectionView, b: SectionView) => compare(a.groupLabel, b.groupLabel)
  }

  /**
   * `sugarlandSectionsByDay`: the Sugar Land sections of a day, each as often
   * as it is listed, ordered by label.
   */
  function SugarlandSectionsByDay(sections: seq<SectionView>, day: Day, compare: (string, string) -> int): (r: seq<SectionView>)
    ensures forall i :: 0 <= i < |r| ==> AtSugarLandOn(r[i], day)
    ensures forall s :: multiset(r)[s] == if AtSugarLandOn(s, day) then multiset(sections)[s] else 0
    ensures forall s :: s in r <==> s in sections && AtSugarLandOn(s, day)
  {
    var onDay := Filter(sections, (s: SectionView) => AtSugarLandOn(s, day));
    var r := SortBy(onDay, LabelOrder(compare));
    assert forall s :: s in r <==> s in onDay by {
      assert multiset(r) == multiset(onDay);
      forall s ensures s in r <==> s in onDay {
        assert s in r <==> s in multiset(r);
        assert s in onDay <==> s in multiset(onDay);
      }
    }
    assert forall s :: s in onDay <==> s in sections && AtSugarLandOn(s, day) by {
      forall s ensures s in onDay <==> s in sections && AtSugarLandOn(s, day) {
        assert s in onDay <==> s in multiset(onDay);
        assert s in sections <==> s in multiset(sections);
      }
    }
    r
  }

  /** With a comparator that never orders two labels both ways, the day's sections are in label order. */
  lemma SugarlandSectionsByDayOrdered(sections: seq<SectionView>, day: Day, compare: (string, string) -> int)
    requires forall a, b :: compare(a, b) > 0 ==> compare(b, a) <= 0
    ensures var r := SugarlandSectionsByDay(sections, day, compare);
            forall i :: 0 <= i < |r| - 1 ==> compare(r[i].groupLabel, r[i + 1].groupLabel) <= 0
  {
    var onDay := Filter(sections, (s: SectionView) => AtSugarLandOn(s, day));
    var cmp := LabelOrder(compare);
    assert Antisymmetric(cmp) by {
      forall a: SectionView, b: SectionView | cmp(a, b) > 0
        ensures cmp(b, a) <= 0
      {
        assert compare(a.groupLabel, b.groupLabel) > 0;
      }
    }
    SortBySorted(onDay, cmp);
    var r := SugarlandSectionsByDay(sections, day, compare);
    assert r == SortBy(onDay, cmp);
    forall i | 0 <= i < |r| - 1
      ensures compare(r[i].groupLabel, r[i + 1].groupLabel) <= 0
    {
      assert cmp(r[i], r[i + 1]) <= 0;
    }
  }

  /** `sugarlandDayHasOpenSection`: some Sugar Land section of the day has a seat, whatever the label order. */
  predicate SugarlandDayHasOpenSection(sections: seq<SectionView>, day: Day, compare: (string, string) -> int)
    ensures SugarlandDayHasOpenSection(sections, day, compare) <==>
      exists s :: s in sections && AtSugarLandOn(s, day) && s.seatsRemaining > 0
  {
    var byDay := SugarlandSectionsByDay(sections, day, compare);
    exists i :: 0 <= i < |byDay| && byDay[i].seatsRemaining > 0
  }

  /** `sugarlandTwiceUnavailable`: Monday or Thursday has no Sugar Land section with a seat left. */
  predicate SugarlandTwiceUnavailable(sections: seq<SectionView>, compare: (string, string) -> int)
    ensures SugarlandTwiceUnavailable(sections, compare) <==>
      (forall s :: s in sections && AtSugarLandOn(s, Monday) ==> s.seatsRemaining <= 0) ||
      (forall s :: s in sections && AtSugarLandOn(s, Thursday) ==> s.seatsRemaining <= 0)
  {
    !(SugarlandDayHasOpenSection(sections, Monday, compare) && SugarlandDayHasOpenSection(sections, Thursday, compare))
  }

  /** `twoDaysUnavailable`: whether the twice-a-week option is disabled for the chosen location. */
  predicate TwoDaysUnavailable(loc: Option<Location>, counts: Counts, sections: seq<SectionView>, compare: (string, string) -> int)
    ensures loc.None? ==> !TwoDaysUnavailable(loc, counts, sections, compare)
    ensures loc == Some(Katy) ==>
      (TwoDaysUnavailable(loc, counts, sections, compare) <==>
       CountAt(counts, Katy, Tuesday) >= MaxClassSize || CountAt(counts, Katy, Wednesday) >= MaxClassSize)
    ensures loc == Some(SugarLand) ==>
      (TwoDaysUnavailable(loc, counts, sections, compare) <==>
       (forall s :: s in sections && AtSugarLandOn(s, Monday) ==> s.seatsRemaining <= 0) ||
       (forall s :: s in sections && AtSugarLandOn(s, Thursday) ==> s.seatsRemaining <= 0))
  {
    if loc.None? then false
    else if loc.value == SugarLand then SugarlandTwiceUnavailable(sections, compare)
    else exists i :: 0 <= i < |ClassDays(loc.value)| && IsSoldOut(counts, loc.value, ClassDays(loc.value)[i])
  }

  /** Whether a section is the Sugar Land section of `day` labelled `groupLabel`. */
  predicate InGroup(s: SectionView, day: Day, groupLabel: string)
  {
    AtSugarLandOn(s, day) && s.groupLabel == groupLabel
  }

  /**
   * `sugarlandGroup`: each half is the first listed Sugar Land section of its
   * day with the label, and is missing exactly when there is none.
   */
  function SugarlandGroup(sections: seq<SectionView>, groupLabel: string): (group: (Option<SectionView>, Option<SectionView>))
    ensures group.0.None? <==> forall i :: 0 <= i < |sections| ==> !InGroup(sections[i], Monday, groupLabel)
    ensures group.0.Some? ==> exists i :: 0 <= i < |sections| && sections[i] == group.0.value && InGroup(sections[i], Monday, groupLabel) &&
                                         forall j :: 0 <= j < i ==> !InGroup(sections[j], Monday, groupLabel)
    ensures group.1.None? <==> forall i :: 0 <= i < |sections| ==> !InGroup(sections[i], Thursday, groupLabel)
    ensures group.1.Some? ==> exists i :: 0 <= i < |sections| && sections[i] == group.1.value && InGroup(sections[i], Thursday, groupLabel) &&
                                         forall j :: 0 <= j < i ==> !InGroup(sections[j], Thursday, groupLabel)
    ensures group.0.Some? ==> group.0.value in sections && InGroup(group.0.value, Monday, groupLabel)
    ensures group.1.Some? ==> group.1.value in sections && InGroup(group.1.value, Thursday, groupLabel)
  {
    (Find(sections, (s: SectionView) => InGroup(s, Monday, groupLabel)),
     Find(sections, (s: SectionView) => InGroup(s, Thursday, groupLabel)))
  }

  /**
   * `groupSoldOut`: a Monday+Thursday group is unavailable when either half is
   * missing or has no seat; a group that is offered has both halves open.
   */
  predicate GroupSoldOut(sections: seq<SectionView>, groupLabel: string)
    ensures (forall i :: 0 <= i < |sections| ==> !InGroup(sections[i], Monday, groupLabel)) ==> GroupSoldOut(sections, groupLabel)
    ensures (forall i :: 0 <= i < |sections| ==> !InGroup(sections[i], Thursday, groupLabel)) ==> GroupSoldOut(sections, groupLabel)
    ensures !GroupSoldOut(sections, groupLabel) ==>
      HalfOpen(sections, Monday, groupLabel) && HalfOpen(sections, Thursday, groupLabel)
  {
    var (mon, thu) := SugarlandGroup(sections, groupLabel);
    mon.None? || thu.None? || mon.value.seatsRemaining == 0 || thu.value.seatsRemaining == 0
  }

  /**
   * At most one Sugar Land section per (day, label). The listing does not
   * guarantee this: it returns the active sections of every session, so two
   * sessions with active sections can list the same (day, label) twice.
   */
  ghost predicate UniqueGroups(sections: seq<SectionView>)
  {
    forall i, j ::
      (0 <= i < |sections| && 0 <= j < |sections| &&
       sections[i].location == SugarLand && sections[j].location == SugarLand &&
       sections[i].day == sections[j].day && sections[i].groupLabel == sections[j].groupLabel) ==> i == j
  }

  ghost predicate HalfOpen(sections: seq<SectionView>, day: Day, groupLabel: string)
  {
    exists i :: 0 <= i < |sections| && AtSugarLandOn(sections[i], day) &&
      sections[i].groupLabel == groupLabel && sections[i].seatsRemaining != 0
  }

  /**
   * With one section per (day, label), a group is sold out exactly when its
   * Monday or its Thursday section is missing or has no seat left.
   */
  lemma GroupSoldOutIff(sections: seq<SectionView>, groupLabel: string)
    requires UniqueGroups(sections)
    ensures GroupSoldOut(sections, groupLabel) <==>
      !(HalfOpen(sections, Monday, groupLabel) && HalfOpen(sections, Thursday, groupLabel))
  {
    var (mon, thu) := SugarlandGroup(sections, groupLabel);
    if HalfOpen(sections, Monday, groupLabel) {
      var i :| 0 <= i < |sections| && AtSugarLandOn(sections[i], Monday) &&
        sections[i].groupLabel == groupLabel && sections[i].seatsRemaining != 0;
      assert mon.Some?;
      var k :| 0 <= k < |sections| && sections[k] == mon.value;
      assert k == i;
    }
    if HalfOpen(sections, Thursday, groupLabel) {
      var i :| 0 <= i < |sections| && AtSugarLandOn(sections[i], Thursday) &&
        sections[i].groupLabel == groupLabel && sections[i].seatsRemaining != 0;
      assert thu.Some?;
      var k :| 0 <= k < |sections| && sections[k] == thu.value;
      assert k == i;
    }
    if mon.Some? && mon.value.seatsRemaining != 0 {
      var k :| 0 <= k < |sections| && sections[k] == mon.value;
      assert HalfOpen(sections, Monday, groupLabel);
    }
    if thu.Some? && thu.value.seatsRemaining != 0 {
      var k :| 0 <= k < |sections| && sections[k] == thu.value;
      assert HalfOpen(sections, Thursday, groupLabel);
    }
  }

  /** `soldOutDaysMsg`: which of a location's two class days are full. */
  function SoldOutDaysMsg(loc: Option<Location>, counts: Counts, sections: seq<SectionView>, compare: (string, string) -> int): (msg: string)
    ensures loc.None? ==> msg == ""
  {
    if loc.None? then ""
    else if loc.value == SugarLand then
      var monOpen := SugarlandDayHasOpenSection(sections, Monday, compare);
      var thuOpen := SugarlandDayHasOpenSection(sections, Thursday, compare);
      SectionLevelSoldOutMsg(monOpen, thuOpen)
    else DayLevelSoldOutMsg(loc.value, counts)
  }

  /** The section-level branch of `soldOutDaysMsg`, from whether Monday and Thursday still have an open section. */
  function SectionLevelSoldOutMsg(monOpen: bool, thuOpen: bool): string
  {
    if monOpen && thuOpen then ""
    else if !monOpen && !thuOpen then "Both days sold out"
    else if !monOpen then "Monday sold out" else "Thursday sold out"
  }

  /** The legacy day-level branch of `soldOutDaysMsg`. */
  function DayLevelSoldOutMsg(loc: Location, counts: Counts): string
  {
    var days := ClassDays(loc);
    var sold := SoldDays(counts, loc, days);
    if |sold| == 0 then ""
    else if |sold| == |days| then "Both days sold out"
    else Join(DayNames(sold), " and ") + " sold out"
  }

  function DayNames(days: seq<Day>): (names: seq<string>)
    ensures |names| == |days| && forall i :: 0 <= i < |days| ==> names[i] == DayName(days[i])
  {
    if days == [] then [] else [DayName(days[0])] + DayNames(days[1..])
  }

  /** `days.filter(d => isSoldOut(loc, d))`. */
  function SoldDays(counts: Counts, loc: Location, days: seq<Day>): (sold: seq<Day>)
    ensures forall d :: d in sold <==> d in days && IsSoldOut(counts, loc, d)
  {
    if days == [] then []
    else (if IsSoldOut(counts, loc, days[0]) then [days[0]] else []) + SoldDays(counts, loc, days[1..])
  }

  /** For Katy the message names exactly the class days whose head count reached the cap. */
  lemma KatySoldOutDaysMsg(counts: Counts, sections: seq<SectionView>, compare: (string, string) -> int)
    ensures var tue := IsSoldOut(counts, Katy, Tuesday);
            var wed := IsSoldOut(counts, Katy, Wednesday);
            var msg := SoldOutDaysMsg(Some(Katy), counts, sections, compare);
            (msg == "" <==> !tue && !wed) &&
            (tue && wed ==> msg == "Both days sold out") &&
            (tue && !wed ==> msg == "Tuesday sold out") &&
            (!tue && wed ==> msg == "Wednesday sold out")
  {
    var tue := IsSoldOut(counts, Katy, Tuesday);
    var wed := IsSoldOut(counts, Katy, Wednesday);
    var days := ClassDays(Katy);
    assert days == [Tuesday, Wednesday];
    assert days[1..] == [Wednesday];
    assert days[1..][1..] == [];
    assert SoldOutDaysMsg(Some(Katy), counts, sections, compare) == DayLevelSoldOutMsg(Katy, counts);
    var sold := SoldDays(counts, Katy, days);
    assert SoldDays(counts, Katy, days[1..][1..]) == [];
    assert SoldDays(counts, Katy, days[1..]) == (if wed then [Wednesday] else []);
    assert sold == (if tue then [Tuesday] else []) + (if wed then [Wednesday] else []);
    if tue && !wed {
      assert DayNames(sold) == ["Tuesday"];
    } else if !tue && wed {
      assert DayNames(sold) == ["Wednesday"];
    }
  }

  /** For Sugar Land the message names the days without any open section. */
  lemma SugarLandSoldOutDaysMsg(counts: Counts, sections: seq<SectionView>, compare: (string, string) -> int)
    ensures var monOpen := exists s :: s in sections && AtSugarLandOn(s, Monday) && s.seatsRemaining > 0;
            var thuOpen := exists s :: s in sections && AtSugarLandOn(s, Thursday) && s.seatsRemaining > 0;
            var msg := SoldOutDaysMsg(Some(SugarLand), counts, sections, compare);
            (msg == "" <==> monOpen && thuOpen) &&
            (!monOpen && !thuOpen ==> msg == "Both days sold out") &&
            (!monOpen && thuOpen ==> msg == "Monday sold out") &&
            (monOpen && !thuOpen ==> msg == "Thursday sold out")
  {
    var monOpen := SugarlandDayHasOpenSection(sections, Monday, compare);
    var thuOpen := SugarlandDayHasOpenSection(sections, Thursday, compare);
    assert SoldOutDaysMsg(Some(SugarLand), counts, sections, compare) == SectionLevelSoldOutMsg(monOpen, thuOpen);
  }
}
