/**
 * The totals the registration page shows (src/pages/index.tsx). Katy keeps
 * the legacy per-day price table; Sugar Land is priced from the selected
 * sections. Totals are JavaScript numbers, so they are `real` here: a
 * price in cents divided by 100 is exact.
 */
module Pricing {
  import opened Domain
  import opened SectionsApi
  import opened Availability
  import opened Selection

  /** Two-day price of group A, in cents. */
  const TwoDayPriceOriginalCents := 45000
  /** Two-day price of group B (the bonus classes), in cents. */
  const TwoDayPriceBonusCents := 38000

  /** `prices[loc][day]`, in dollars: zero on the days a location does not teach. */
  function DayPrice(loc: Location, day: Day): (price: int)
    ensures price > 0 <==> IsClassDay(loc, day)
    ensures price >= 0
  {
    match (loc, day)
    case (Katy, Tuesday) => 245
    case (Katy, Wednesday) => 245
    case (SugarLand, Monday) => 230
    case (SugarLand, Thursday) => 245
    case _ => 0
  }

  /** `prices[loc].both`, in dollars. */
  function BothDaysPrice(loc: Location): int
  {
    450
  }

  /** The dollar price printed on a Sugar Land group card: $380 for the bonus group B, $450 for any other. */
  function GroupCardPrice(groupLabel: string): (price: real)
    ensures price == 380.0 <==> groupLabel == "B"
    ensures price == 380.0 || price == 450.0
  {
    (if groupLabel == "B" then TwoDayPriceBonusCents else TwoDayPriceOriginalCents) as real / 100.0
  }

  /** `sec.priceCents / 100`: the section's price in dollars, before rounding for display. */
  function SectionCardPrice(sec: SectionView): (price: real)
    ensures 100.0 * price == sec.priceCents as real
  {
    sec.priceCents as real / 100.0
  }

  /**
   * `(priceCents / 100).toFixed(0)`, the whole-dollar figure on a Sugar Land
   * section button: the nearest whole number of dollars, a half rounded away
   * from zero.
   */
  function ButtonDollars(priceCents: int): (dollars: int)
    ensures priceCents >= 0 ==> 100 * dollars - 50 <= priceCents < 100 * dollars + 50
    ensures priceCents < 0 ==> 100 * dollars - 50 < priceCents <= 100 * dollars + 50
  {
    if priceCents >= 0 then (priceCents + 50) / 100 else -((-priceCents + 50) / 100)
  }

  /** The button shows the section's exact price exactly when it is a whole number of dollars. */
  lemma ButtonShowsExactPrice(sec: SectionView)
    ensures ButtonDollars(sec.priceCents) as real == SectionCardPrice(sec) <==> sec.priceCents % 100 == 0
  {
    var p := sec.priceCents;
    var d := ButtonDollars(p);
    if p % 100 == 0 {
      assert p == 100 * (p / 100);
      assert d == p / 100;
    }
    if d as real == SectionCardPrice(sec) {
      assert 100.0 * (d as real) == p as real;
      assert p == 100 * d;
    }
  }

  /** The TWICE branch shared by both versions of `calcTotalSugarLand`. */
  function TwiceTotal(selected: seq<SectionView>): (total: real)
    ensures total != 0.0 <==> |selected| == 2 && selected[0].groupLabel == selected[1].groupLabel
    ensures total != 0.0 ==> total == GroupCardPrice(selected[0].groupLabel)
  {
    if |selected| == 2 && selected[0].groupLabel == selected[1].groupLabel then
      GroupCardPrice(selected[0].groupLabel)
    else 0.0
  }

  /** `calcTotalSugarLand` as written: the ONCE branch returns the price in cents. */
  function CalcTotalSugarLandAsWritten(location: Option<Location>, frequency: Option<Frequency>, selected: seq<SectionView>): (total: real)
    ensures location != Some(SugarLand) || frequency.None? ==> total == 0.0
    ensures location == Some(SugarLand) && frequency == Some(Once) ==>
      total == if |selected| == 1 then selected[0].priceCents as real else 0.0
  {
    if location != Some(SugarLand) then 0.0
    else if frequency == Some(Twice) then TwiceTotal(selected)
    else if frequency == Some(Once) then
      if |selected| == 1 then selected[0].priceCents as real else 0.0
    else 0.0
  }

  /** `calcTotalSugarLand` with the ONCE price converted to dollars like every other total. */
  function CalcTotalSugarLand(location: Option<Location>, frequency: Option<Frequency>, selected: seq<SectionView>): (total: real)
    ensures location != Some(SugarLand) || frequency.None? ==> total == 0.0
    ensures location == Some(SugarLand) && frequency == Some(Once) ==>
      total == if |selected| == 1 then SectionCardPrice(selected[0]) else 0.0
  {
    if location != Some(SugarLand) then 0.0
    else if frequency == Some(Twice) then TwiceTotal(selected)
    else if frequency == Some(Once) then
      if |selected| == 1 then SectionCardPrice(selected[0]) else 0.0
    else 0.0
  }

  /**
   * `calculateTotal`, the total the page shows: nothing before a location and
   * a plan are chosen; Sugar Land through `calcTotalSugarLand` as written, so
   * that a ONCE plan shows the section's price in cents.
   */
  function CalculateTotal(location: Option<Location>, frequency: Option<Frequency>, selectedDay: Option<Day>, selected: seq<SectionView>): (total: real)
    ensures location.None? || frequency.None? ==> total == 0.0
    ensures location == Some(SugarLand) && frequency == Some(Once) ==>
      total == if |selected| == 1 then selected[0].priceCents as real else 0.0
    ensures location == Some(SugarLand) && frequency == Some(Twice) ==> total == TwiceTotal(selected)
  {
    if location.None? || frequency.None? then 0.0
    else if location.value == SugarLand then CalcTotalSugarLandAsWritten(location, frequency, selected)
    else if frequency.value == Once && selectedDay.Some? then DayPrice(location.value, selectedDay.value) as real
    else if frequency.value == Twice then BothDaysPrice(location.value) as real
    else 0.0
  }

  /** `calculateTotal` with the corrected Sugar Land total; it differs from the page only for a Sugar Land ONCE plan. */
  function CalculateTotalCorrected(location: Option<Location>, frequency: Option<Frequency>, selectedDay: Option<Day>, selected: seq<SectionView>): (total: real)
    ensures location.None? || frequency.None? ==> total == 0.0
    ensures location == Some(SugarLand) && frequency == Some(Once) ==>
      total == if |selected| == 1 then SectionCardPrice(selected[0]) else 0.0
    ensures !(location == Some(SugarLand) && frequency == Some(Once)) ==>
      total == CalculateTotal(location, frequency, selectedDay, selected)
  {
    if location.None? || frequency.None? then 0.0
    else if location.value == SugarLand then CalcTotalSugarLand(location, frequency, selected)
    else if frequency.value == Once && selectedDay.Some? then DayPrice(location.value, selectedDay.value) as real
    else if frequency.value == Twice then BothDaysPrice(location.value) as real
    else 0.0
  }

  /**
   * The Sugar Land TWICE total: 380 for a pair of B sections, 450 for any other
   * pair sharing a label, and 0 for every other selection.
   */
  lemma SugarLandTwiceTotal(selected: seq<SectionView>)
    ensures var total := CalculateTotal(Some(SugarLand), Some(Twice), None, selected);
            (|selected| == 2 && selected[0].groupLabel == selected[1].groupLabel && selected[0].groupLabel == "B" ==> total == 380.0) &&
            (|selected| == 2 && selected[0].groupLabel == selected[1].groupLabel && selected[0].groupLabel != "B" ==> total == 450.0) &&
            (!(|selected| == 2 && selected[0].groupLabel == selected[1].groupLabel) ==> total == 0.0)
  {
  }

  /** Picking a group card makes the total the price printed on that card, in both versions. */
  lemma GroupPickTotalMatchesCard(prev: seq<SectionView>, sections: seq<SectionView>, groupLabel: string)
    requires !GroupSoldOut(sections, groupLabel)
    ensures CalculateTotal(Some(SugarLand), Some(Twice), None, GroupPicked(prev, sections, groupLabel)) ==
            GroupCardPrice(groupLabel)
    ensures CalculateTotalCorrected(Some(SugarLand), Some(Twice), None, GroupPicked(prev, sections, groupLabel)) ==
            GroupCardPrice(groupLabel)
  {
    GroupPickedIsPair(prev, sections, groupLabel);
  }

  /**
   * Corrected: under ONCE, choosing a section makes the total its price in
   * dollars, which is the figure on its button whenever the price is a whole
   * number of dollars.
   */
  lemma OncePickTotalMatchesCard(prev: seq<SectionView>, sec: SectionView)
    requires !HasId(prev, sec.id)
    ensures CalculateTotalCorrected(Some(SugarLand), Some(Once), None, Toggled(prev, sec, Some(Once))) == SectionCardPrice(sec)
    ensures sec.priceCents % 100 == 0 ==>
      CalculateTotalCorrected(Some(SugarLand), Some(Once), None, Toggled(prev, sec, Some(Once))) == ButtonDollars(sec.priceCents) as real
  {
    ToggleOnceReplaces(prev, sec);
    ButtonShowsExactPrice(sec);
  }

  /** As written, the page's total for the same choice is a hundred times the section's price in dollars. */
  lemma OncePickTotalAsWritten(prev: seq<SectionView>, sec: SectionView)
    requires !HasId(prev, sec.id) && sec.priceCents != 0
    ensures CalculateTotal(Some(SugarLand), Some(Once), None, Toggled(prev, sec, Some(Once))) == 100.0 * SectionCardPrice(sec)
    ensures CalculateTotal(Some(SugarLand), Some(Once), None, Toggled(prev, sec, Some(Once))) != SectionCardPrice(sec)
  {
    ToggleOnceReplaces(prev, sec);
  }

  /** The Monday section seeded at 23000 cents is shown as $230 but totalled as 23000. */
  lemma OnceTotalCounterexample(sec: SectionView)
    requires sec.location == SugarLand && sec.priceCents == 23000
    ensures ButtonDollars(sec.priceCents) == 230 && SectionCardPrice(sec) == 230.0
    ensures CalculateTotal(Some(SugarLand), Some(Once), None, [sec]) == 23000.0
    ensures CalculateTotalCorrected(Some(SugarLand), Some(Once), None, [sec]) == 230.0
  {
  }

  /**
   * Katy: a ONCE plan costs the price printed for the chosen day, which is
   * positive exactly on the class days; a TWICE plan costs 450.
   */
  lemma KatyTotal(frequency: Frequency, selectedDay: Option<Day>, selected: seq<SectionView>)
    ensures var total := CalculateTotal(Some(Katy), Some(frequency), selectedDay, selected);
            (frequency == Twice ==> total == 450.0) &&
            (frequency == Once && selectedDay.None? ==> total == 0.0) &&
            (frequency == Once && selectedDay.Some? ==>
               total == DayPrice(Katy, selectedDay.value) as real &&
               (total > 0.0 <==> IsClassDay(Katy, selectedDay.value)))
  {
  }

  /** With non-negative section prices no total is negative. */
  lemma TotalNonNegative(location: Option<Location>, frequency: Option<Frequency>, selectedDay: Option<Day>, selected: seq<SectionView>)
    requires forall i :: 0 <= i < |selected| ==> selected[i].priceCents >= 0
    ensures CalculateTotal(location, frequency, selectedDay, selected) >= 0.0
    ensures CalculateTotalCorrected(location, frequency, selectedDay, selected) >= 0.0
  {
  }
}
