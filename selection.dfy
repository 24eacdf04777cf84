/**
 * The Sugar Land section picker of the registration page
 * (src/pages/index.tsx): the list of selected sections, the step of the
 * two-day picker and whether the form is shown. The page keeps these in
 * React state; here they are the fields of one object whose methods are
 * the page's event handlers.
 */
module Selection {
  import opened Domain
  import opened Seqs
  import opened SectionsApi
  import opened Availability

  /** Whether some selected section carries the id (`prev.some(p => p.id === id)`). */
  predicate HasId(prev: seq<SectionView>, id: string)
  {
    exists i :: 0 <= i < |prev| && prev[i].id == id
  }

  /** The filter predicate `p => p.id !== id`. */
  function NotId(id: string): SectionView -> bool
  {
    (p: SectionView) => p.id != id
  }

  /** The filter predicate `s => s.day !== day`. */
  function OtherDay(day: Day): SectionView -> bool
  {
    (s: SectionView) => s.day != day
  }

  /** The list `toggleSection` computes from the previous one: the section's id is selected afterwards exactly when it was not before. */
  function Toggled(prev: seq<SectionView>, section: SectionView, frequency: Option<Frequency>): (r: seq<SectionView>)
    ensures HasId(r, section.id) <==> !HasId(prev, section.id)
  {
    if HasId(prev, section.id) then
      var r := Filter(prev, NotId(section.id));
      assert forall i :: 0 <= i < |r| ==> NotId(section.id)(r[i]);
      r
    else if frequency == Some(Once) then
      assert [section][0] == section;
      [section]
    else
      var next := prev + [section];
      var r := if |next| > 2 then next[1..] else next;
      assert r[|r| - 1] == section;
      r
  }

  /** The list `pickSectionForDay` computes: the other days' picks, then `sec`. */
  function PickedForDay(prev: seq<SectionView>, sec: SectionView): (r: seq<SectionView>)
    ensures r != [] && r[|r| - 1] == sec
    ensures forall i :: 0 <= i < |r| - 1 ==> r[i].day != sec.day
    ensures |r| <= |prev| + 1
  {
    var others := Filter(prev, OtherDay(sec.day));
    assert forall i :: 0 <= i < |others| ==> OtherDay(sec.day)(others[i]);
    others + [sec]
  }

  /** The list `pickGroupBothDays` leaves: both halves of the group, or the old list when one is missing. */
  function GroupPicked(prev: seq<SectionView>, sections: seq<SectionView>, groupLabel: string): (r: seq<SectionView>)
    ensures var missing := (forall i :: 0 <= i < |sections| ==> !InGroup(sections[i], Monday, groupLabel)) ||
                           (forall i :: 0 <= i < |sections| ==> !InGroup(sections[i], Thursday, groupLabel));
            (missing ==> r == prev) &&
            (!missing ==> |r| == 2 && InGroup(r[0], Monday, groupLabel) && InGroup(r[1], Thursday, groupLabel) &&
                          r[0] in sections && r[1] in sections)
  {
    var (mon, thu) := SugarlandGroup(sections, groupLabel);
    if mon.None? || thu.None? then prev else [mon.value, thu.value]
  }

  class SelectionState {
    var selected: seq<SectionView>
    var twiceDayStep: Option<Day>
    var formVisible: bool

    /** The page's initial state: nothing selected, no step, no form. */
    constructor ()
      ensures selected == [] && twiceDayStep == None && !formVisible
    {
      selected := [];
      twiceDayStep := None;
      formVisible := false;
    }

    /** `toggleSection`: deselect, replace (ONCE), or append and drop the oldest beyond two. */
    method ToggleSection(section: SectionView, frequency: Option<Frequency>)
      modifies this
      ensures selected == Toggled(old(selected), section, frequency)
      ensures twiceDayStep == old(twiceDayStep) && formVisible == old(formVisible)
    {
      var prev := selected;
      if HasId(prev, section.id) {
        selected := Filter(prev, NotId(section.id));
        return;
      }
      if frequency == Some(Once) {
        selected := [section];
        return;
      }
      var next := prev + [section];
      if |next| > 2 {
        next := next[1..];
      }
      selected := next;
    }

    /** `pickSectionForDay`: replace the pick for `sec.day`; after a Monday pick of a Sugar Land TWICE plan, move to Thursday. */
    method PickSectionForDay(sec: SectionView, location: Option<Location>, frequency: Option<Frequency>)
      modifies this
      ensures selected == PickedForDay(old(selected), sec)
      ensures twiceDayStep ==
        if location == Some(SugarLand) && frequency == Some(Twice) && sec.day == Monday then Some(Thursday)
        else old(twiceDayStep)
      ensures formVisible == old(formVisible)
    {
      var others := Filter(selected, OtherDay(sec.day));
      selected := others + [sec];
      if location == Some(SugarLand) && frequency == Some(Twice) {
        if sec.day == Monday {
          twiceDayStep := Some(Thursday);
        }
      }
    }

    /** `pickGroupBothDays`: select the Monday and Thursday sections of a group and show the form. */
    method PickGroupBothDays(sections: seq<SectionView>, groupLabel: string)
      modifies this
      ensures selected == GroupPicked(old(selected), sections, groupLabel)
      ensures var (mon, thu) := SugarlandGroup(sections, groupLabel);
              formVisible == if mon.None? || thu.None? then old(formVisible) else true
      ensures twiceDayStep == old(twiceDayStep)
    {
      var (mon, thu) := SugarlandGroup(sections, groupLabel);
      if mon.None? || thu.None? {
        return;
      }
      selected := [mon.value, thu.value];
      formVisible := true;
    }
  }

  /** Toggling a selected id removes every section with that id and keeps the rest, in order. */
  lemma ToggleRemovesSelected(prev: seq<SectionView>, section: SectionView, frequency: Option<Frequency>)
    requires HasId(prev, section.id)
    ensures var r := Toggled(prev, section, frequency);
            r == Filter(prev, NotId(section.id)) &&
            !HasId(r, section.id) &&
            (forall p :: p in r <==> p in prev && p.id != section.id) &&
            |r| < |prev|
  {
    var keep := NotId(section.id);
    var r := Filter(prev, keep);
    assert Toggled(prev, section, frequency) == r;
    forall p
      ensures p in r <==> p in prev && p.id != section.id
    {
      assert p in r <==> multiset(r)[p] > 0;
      assert p in prev <==> multiset(prev)[p] > 0;
      assert keep(p) == (p.id != section.id);
    }
    forall k | 0 <= k < |r|
      ensures r[k].id != section.id
    {
      assert keep(r[k]);
    }
    var i :| 0 <= i < |prev| && prev[i].id == section.id;
    FilterDropsSome(prev, keep, i);
  }

  /** Under ONCE a new section replaces the whole selection. */
  lemma ToggleOnceReplaces(prev: seq<SectionView>, section: SectionView)
    requires !HasId(prev, section.id)
    ensures Toggled(prev, section, Some(Once)) == [section]
  {
  }

  /**
   * Otherwise a new section goes to the end, and the oldest pick is dropped
   * when that would make three.
   */
  lemma ToggleAppends(prev: seq<SectionView>, section: SectionView, frequency: Option<Frequency>)
    requires !HasId(prev, section.id) && frequency != Some(Once)
    ensures var r := Toggled(prev, section, frequency);
            r != [] && r[|r| - 1] == section &&
            (|prev| < 2 ==> r == prev + [section]) &&
            (|prev| == 2 ==> r == [prev[1], section])
  {
  }

  /** A selection of at most two sections stays at most two. */
  lemma ToggleKeepsBound(prev: seq<SectionView>, section: SectionView, frequency: Option<Frequency>)
    requires |prev| <= 2
    ensures |Toggled(prev, section, frequency)| <= 2
  {
  }

  /** Selecting a new section and then toggling it again gives back the earlier selection. */
  lemma ToggleTwiceRestores(prev: seq<SectionView>, section: SectionView, frequency: Option<Frequency>)
    requires !HasId(prev, section.id) && |prev| <= 1 && frequency != Some(Once)
    ensures Toggled(Toggled(prev, section, frequency), section, frequency) == prev
  {
    var next := prev + [section];
    assert Toggled(prev, section, frequency) == next;
    assert next[|prev|].id == section.id;
    FilterConcat(prev, [section], NotId(section.id));
    FilterAllPass(prev, NotId(section.id));
    assert Filter([section], NotId(section.id)) == [];
  }

  /**
   * `pickSectionForDay` leaves `sec` as the only pick on its day and keeps the
   * picks of the other days, in their order.
   */
  lemma PickedForDayProperties(prev: seq<SectionView>, sec: SectionView)
    ensures var r := PickedForDay(prev, sec);
            sec in r &&
            (forall s :: s in r && s.day == sec.day ==> s == sec) &&
            Filter(r, OtherDay(sec.day)) == Filter(prev, OtherDay(sec.day))
  {
    var others := Filter(prev, OtherDay(sec.day));
    FilterConcat(others, [sec], OtherDay(sec.day));
    FilterAllPass(others, OtherDay(sec.day));
    assert Filter([sec], OtherDay(sec.day)) == [];
    forall s | s in PickedForDay(prev, sec) && s.day == sec.day
      ensures s == sec
    {
      assert multiset(others)[s] == 0;
    }
  }

  /** A picked group is its Monday section followed by its Thursday section, both with the label. */
  lemma GroupPickedIsPair(prev: seq<SectionView>, sections: seq<SectionView>, groupLabel: string)
    requires !GroupSoldOut(sections, groupLabel)
    ensures var r := GroupPicked(prev, sections, groupLabel);
            |r| == 2 && r[0] in sections && r[1] in sections &&
            AtSugarLandOn(r[0], Monday) && AtSugarLandOn(r[1], Thursday) &&
            r[0].groupLabel == groupLabel && r[1].groupLabel == groupLabel &&
            r[0].seatsRemaining != 0 && r[1].seatsRemaining != 0
  {
  }
}
