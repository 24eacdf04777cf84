/**
 * The two ordinal-suffix helpers of the registration page
 * (src/pages/index.tsx): `getOrdinal` inside `formatReadableDate` and
 * `suffix` inside `formatDateNoWeekday`. Both read the day of the month;
 * the dates themselves come from the JavaScript `Date` library, which is
 * not part of this model.
 */
module Ordinal {
  import opened Text

  /** JavaScript's `%`: the remainder takes the sign of the dividend. */
  function JsRem(n: int, d: int): int
    requires d > 0
  {
    if n >= 0 then n % d else -((-n) % d)
  }

  /** `getOrdinal(n)`: 4 to 20 take "th"; otherwise the last digit decides. */
  function GetOrdinal(n: int): string
  {
    if n > 3 && n < 21 then IntToString(n) + "th"
    else
      var last := JsRem(n, 10);
      if last == 1 then IntToString(n) + "st"
      else if last == 2 then IntToString(n) + "nd"
      else if last == 3 then IntToString(n) + "rd"
      else IntToString(n) + "th"
  }

  /** `suffix(n)`: the last digit decides, except for 11, 12 and 13 in the last two digits. */
  function Suffix(n: int): string
  {
    if JsRem(n, 10) == 1 && JsRem(n, 100) != 11 then "st"
    else if JsRem(n, 10) == 2 && JsRem(n, 100) != 12 then "nd"
    else if JsRem(n, 10) == 3 && JsRem(n, 100) != 13 then "rd"
    else "th"
  }

  /** The English rule both helpers follow, for a day of the month. */
  function EnglishSuffix(day: int): (s: string)
    requires 1 <= day <= 31
    ensures s == "st" <==> day == 1 || day == 21 || day == 31
    ensures s == "nd" <==> day == 2 || day == 22
    ensures s == "rd" <==> day == 3 || day == 23
    ensures s == "th" <==> !(day in {1, 2, 3, 21, 22, 23, 31})
  {
    if day == 1 || day == 21 || day == 31 then "st"
    else if day == 2 || day == 22 then "nd"
    else if day == 3 || day == 23 then "rd"
    else "th"
  }

  /** `getOrdinal` prints the number followed by its English suffix on every day of a month. */
  lemma GetOrdinalDays(day: int)
    requires 1 <= day <= 31
    ensures GetOrdinal(day) == IntToString(day) + EnglishSuffix(day)
  {
  }

  /** `suffix` gives the English suffix on every day of a month. */
  lemma SuffixDays(day: int)
    requires 1 <= day <= 31
    ensures Suffix(day) == EnglishSuffix(day)
  {
  }

  /**
   * The two helpers agree on every count from 0 to 110; they first differ at
   * 111, where `getOrdinal` says "111st" and `suffix` says "th".
   */
  lemma HelpersAgree(n: int)
    requires 0 <= n <= 110
    ensures GetOrdinal(n) == IntToString(n) + Suffix(n)
  {
    if n >= 100 {
      assert JsRem(n, 100) == n - 100;
    } else {
      assert JsRem(n, 100) == n;
    }
  }

  lemma HelpersDifferAt111()
    ensures GetOrdinal(111) == IntToString(111) + "st"
    ensures Suffix(111) == "th"
  {
    assert JsRem(111, 10) == 1;
    assert JsRem(111, 100) == 11;
  }

  /** Negative counts take "th" in both helpers, since the JavaScript remainder is then not positive. */
  lemma NegativeTakesTh(n: int)
    requires n < 0
    ensures GetOrdinal(n) == IntToString(n) + "th"
    ensures Suffix(n) == "th"
  {
  }
}
