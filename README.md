# Baila Kids registration rules, in Dafny

This project models the business rules of the Baila Kids class-registration
site (a Next.js application) and proves properties about them. It covers:

- **The registration page** (`src/pages/index.tsx`):
  - the Katy head-count cap of 22 and the messages derived from it;
  - the Sugar Land section-based availability rules;
  - the list of selected sections;
  - the price totals;
  - the ordered chain of form checks in `handleSubmit`, including exact
    recognisers for its phone and e-mail patterns;
  - the ordinal-suffix helpers.
- **The API routes**: `register`, `waitList`, `classCounts` and `sections`.
  - Each route's validation chain and response are functions.
  - The student and waiting-list tables are objects whose only change is one
    append.
  - The class-count handler keeps its two nested loops, proved against a
    counting specification.
- **The one-minute cache of the ACTIVE_SESSION setting**: an object with the
  clock and the config row as inputs.
- **The enrollment backfill script**: nested loops over an in-memory
  enrollment table, with `upsert` keyed by (student, section).
- **The admin dashboard's state**: sort toggling, sorted and paid views, the
  map of unsaved cell edits, calendar tile marks, and the Save Event guard.

The database, the clock, `parseInt`, `localeCompare` and `Date` string
conversions are parameters. JavaScript numbers are `int`, or `real` where a
division by 100 occurs. JavaScript's `%` is modelled with truncating
semantics (`Ordinal.JsRem`). `\s` and `trim()` use JavaScript's whitespace
set.

Modules and files:

| file | module | models |
|---|---|---|
| domain.dfy | Domain | locations, days, frequencies, payment statuses, `daysMap` |
| seqs.dfy | Seqs | `filter`, `find` |
| text.dfy | Text | `trim`, `replace(/\s+/g, ' ')`, number printing, `join` |
| sorting.dfy | Sorting | `Array.prototype.sort` with a comparator (stable insertion sort) |
| sections_api.dfy | SectionsApi | `src/pages/api/sections.ts` |
| class_counts.dfy | ClassCounts | `src/pages/api/classCounts.ts` |
| availability.dfy | Availability | the seat and sold-out rules of `index.tsx` |
| selection.dfy | Selection | `selectedSections` and its three updates |
| pricing.dfy | Pricing | `calcTotalSugarLand`, `calculateTotal` |
| ordinal.dfy | Ordinal | `getOrdinal`, `suffix` |
| register_api.dfy | RegisterApi | `src/pages/api/register.ts` |
| waitlist_api.dfy | WaitListApi | `src/pages/api/waitList.ts` |
| submission.dfy | Submission | `handleSubmit` |
| active_session.dfy | ActiveSession | `src/lib/getActiveSession.ts` |
| backfill.dfy | Backfill | `src/scripts/backfillEnrollments.ts` |
| admin.dfy | Admin | `src/pages/admin.tsx` |

## Model

| member | source | states |
|---|---|---|
| Domain.ParseLocation | src/pages/api/classCounts.ts:39-42 | a location key is recognised exactly when it is "KATY" or "SUGARLAND", and then names that location |
| Domain.ParseDay | src/pages/api/classCounts.ts:41-42 | a day key is recognised exactly when it is one of the four day names, and then names that day |
| Domain.ClassDays | src/pages/index.tsx:17-20 | each location teaches on two distinct days |
| Seqs.Filter | src/pages/admin.tsx:99 | `filter` keeps only passing elements, each as often as in the input, and is never longer |
| Seqs.FilterConcat | src/pages/admin.tsx:99 | filtering a concatenation is the concatenation of the filtered parts, so kept elements keep their relative order |
| Seqs.FilterDropsSome | src/pages/index.tsx:324-325 | a filter that rejects some element gives a strictly shorter list |
| Seqs.FilterAllPass | src/pages/index.tsx:336 | a filter that rejects nothing returns its input unchanged |
| Seqs.Find | src/pages/index.tsx:291-295 | `find` is none exactly when no element passes, and otherwise the first passing element |
| Seqs.AllEqualCount | src/pages/api/sections.ts:31 | a list whose elements all equal `x` holds `x` once per position |
| Text.TrimStart | src/pages/index.tsx:530-533 | strips a whitespace-only prefix and leaves a non-whitespace first character |
| Text.TrimEnd | src/pages/index.tsx:530-533 | strips a whitespace-only suffix and leaves a non-whitespace last character |
| Text.NonWhiteConcat | src/pages/index.tsx:530-531 | the non-whitespace characters of a concatenation are those of its parts, in order |
| Text.TrimStartKeepsNonWhite | src/pages/index.tsx:530-533 | trimming the start removes only whitespace |
| Text.TrimEndKeepsNonWhite | src/pages/index.tsx:530-533 | trimming the end removes only whitespace |
| Text.Trim | src/pages/index.tsx:530-533 | the trimmed text neither starts nor ends with whitespace and keeps every non-whitespace character of the input, in order |
| Text.TrimEmptyIff | src/pages/admin.tsx:248 | `trim()` is empty exactly when the text is all whitespace |
| Text.CollapseWhitespace | src/pages/index.tsx:530-531 | `replace(/\s+/g, ' ')` is empty exactly for empty text, is never longer, leaves only single spaces as whitespace, never two whitespace characters in a row, and keeps whether each end is whitespace |
| Text.CollapseKeepsNonWhite | src/pages/index.tsx:530-531 | collapsing whitespace keeps every other character, in order: the words survive unchanged |
| Text.NatToString | src/pages/index.tsx:453 | a count prints as a non-empty run of digits denoting that count, with no leading zero |
| Text.IntToString | src/pages/admin.tsx:93 | `String(n)` is the digits of the number, with no leading zero, preceded by a minus sign exactly when it is negative |
| Text.Join | src/pages/index.tsx:491 | joining a single name gives that name |
| Text.IndexOf | src/pages/index.tsx:544 | the position of the first occurrence of a character, or the length when there is none |
| Sorting.Insert | src/pages/admin.tsx:87-95 | inserting adds exactly one element, as a multiset |
| Sorting.SortBy | src/pages/admin.tsx:87-95 | sorting gives a permutation of its input |
| Sorting.InsertSorted | src/pages/admin.tsx:87-95 | inserting into a sorted list keeps it sorted under an antisymmetric comparator |
| Sorting.SortBySorted | src/pages/admin.tsx:87-95 | with an antisymmetric comparator the result is ordered: no neighbour pair compares greater than zero |
| SectionsApi.SeatsRemaining | src/pages/api/sections.ts:32 | seats left are never negative, are zero exactly when the active count reaches capacity, and otherwise fill capacity with the active count |
| SectionsApi.ActiveCount | src/pages/api/sections.ts:14-16 | the active count is the number of ACTIVE enrollments of the section |
| SectionsApi.Shape | src/pages/api/sections.ts:21-33 | a shaped row copies id, location, day, label, dates, times, price and capacity, and holds the ACTIVE count and its seats-left figure |
| SectionsApi.ListSections | src/pages/api/sections.ts:10-33 | exactly one shaped row per active section, in query order |
| SectionsApi.ShapeAll | src/pages/api/sections.ts:21-33 | the `map` gives one shaped row per input row, position by position |
| SectionsApi.ListedSectionsAreActive | src/pages/api/sections.ts:11 | every listed row is the shape of an active row of the table |
| SectionsApi.FullSectionHasNoSeats | src/pages/api/sections.ts:10-32 | in any table, an active section whose ACTIVE enrollments reach capacity is listed, with zero seats left |
| SectionsApi.HandleSections | src/pages/api/sections.ts:7-39 | non-GET gets 405; a failed query gets 500 with no sections and "Internal error"; otherwise 200 with the listed sections, none with negative seats |
| ClassCounts.Zeroed | src/pages/api/classCounts.ts:32-35 | the initial record holds all eight (location, day) cells at zero |
| ClassCounts.CountClasses | src/pages/api/classCounts.ts:32-54 | after both loops every cell holds the number of times its day is listed by the students at its location on a class day, and zero on the other days |
| ClassCounts.CountStudentDays | src/pages/api/classCounts.ts:41-45 | the inner loop adds one student's recognised days to the running tally |
| ClassCounts.Bump | src/pages/api/classCounts.ts:42-44 | `counts[loc][day] += 1` changes exactly the cell the day text names, and nothing for an unknown day |
| ClassCounts.CountStep | src/pages/api/classCounts.ts:41-45 | one step of the inner loop keeps its invariant |
| ClassCounts.TallyStep | src/pages/api/classCounts.ts:38-46 | after all of a student's days, the record is the tally with that student added |
| ClassCounts.ZeroNonClassDays | src/pages/api/classCounts.ts:49-54 | the second pass zeroes exactly the days a location does not teach and keeps the others |
| ClassCounts.OccurrencesConcat | src/pages/api/classCounts.ts:41-45 | occurrences of a day add up over concatenated day lists |
| ClassCounts.TallyCountsDaysAtLocation | src/pages/api/classCounts.ts:38-46 | a cell's tally is the number of occurrences of its day among all days listed by its location's students |
| ClassCounts.IgnoredStudentAddsNothing | src/pages/api/classCounts.ts:40-43 | a student with a falsy or unknown location, or with no recognised day, adds nothing to any cell |
| ClassCounts.NoRecognisedDay | src/pages/api/classCounts.ts:42 | day texts outside the four names contribute no occurrence |
| ClassCounts.DuplicateDaysCountTwice | src/pages/api/classCounts.ts:41-44 | a Katy student listing Tuesday twice is counted twice on Tuesday |
| Availability.RemainingFor | src/pages/index.tsx:446-447 | seats left on a day are never negative, are zero exactly when the head count reaches 22, and otherwise fill 22 with the count |
| Availability.IsSoldOut | src/pages/index.tsx:449 | a day is sold out exactly when its head count is at least 22 |
| Availability.LowSpotsMsg | src/pages/index.tsx:451-454 | the warning appears exactly when one to five seats are left, saying "spot" for one and "spots" otherwise |
| Availability.SugarlandSectionsByDay | src/pages/index.tsx:285-288 | the list holds exactly the Sugar Land sections of that day, each as often as it is listed |
| Availability.SugarlandSectionsByDayOrdered | src/pages/index.tsx:288 | with a comparator that never orders two labels both ways, the list is in label order |
| Availability.SugarlandDayHasOpenSection | src/pages/index.tsx:314-315 | a day is open exactly when some Sugar Land section on it has seats left |
| Availability.SugarlandTwiceUnavailable | src/pages/index.tsx:318-319 | TWICE is unavailable exactly when every Monday or every Thursday Sugar Land section has no seat |
| Availability.TwoDaysUnavailable | src/pages/index.tsx:457-462 | false with no location; for Katy, true exactly when Tuesday or Wednesday reaches 22; for Sugar Land, true exactly when Monday or Thursday has no section with seats left |
| Availability.SugarlandGroup | src/pages/index.tsx:291-295 | each half is missing exactly when no listed Sugar Land section of its day has the label, and is otherwise the first one that does |
| Availability.GroupSoldOut | src/pages/index.tsx:298-301 | a group with a missing half is sold out; a group that is not sold out has an open section on both days |
| Availability.GroupSoldOutIff | src/pages/index.tsx:298-301 | with one section per (day, label), a group is sold out exactly when its Monday or its Thursday section is missing or has no seat |
| Availability.SoldOutDaysMsg | src/pages/index.tsx:476-477 | no location gives no message |
| Availability.DayNames | src/pages/index.tsx:491 | each day maps to its name, position by position |
| Availability.SoldDays | src/pages/index.tsx:488 | the sold days are exactly the location's class days that are sold out |
| Availability.KatySoldOutDaysMsg | src/pages/index.tsx:487-491 | the Katy message is empty exactly when neither day is sold out, and otherwise names Tuesday, Wednesday or "Both days" |
| Availability.SugarLandSoldOutDaysMsg | src/pages/index.tsx:479-484 | the Sugar Land message is empty exactly when Monday and Thursday both have an open section, and otherwise names the closed day or "Both days" |
| Selection.SelectionState.constructor | src/pages/index.tsx:227-228 | nothing selected and no TWICE step at start |
| Selection.Toggled | src/pages/index.tsx:322-331 | after a toggle the section's id is selected exactly when it was not before |
| Selection.PickedForDay | src/pages/index.tsx:333-338 | the new pick is last, no earlier pick is on its day, and at most one section is added |
| Selection.GroupPicked | src/pages/index.tsx:304-309 | with a half missing the selection is unchanged; otherwise it is a listed Monday section and a listed Thursday section of the group |
| Selection.SelectionState.ToggleSection | src/pages/index.tsx:322-331 | the new selection is the toggled list and nothing else changes |
| Selection.SelectionState.PickSectionForDay | src/pages/index.tsx:333-344 | the new selection replaces the pick for the section's day; the step moves to Thursday exactly after a Monday pick of a Sugar Land TWICE plan |
| Selection.SelectionState.PickGroupBothDays | src/pages/index.tsx:304-309 | selects both halves of a complete group and shows the form; with a half missing nothing changes |
| Selection.ToggleRemovesSelected | src/pages/index.tsx:324-325 | toggling a selected id gives exactly the earlier selection without that id, in order, strictly shorter |
| Selection.ToggleOnceReplaces | src/pages/index.tsx:326 | under ONCE a new section becomes the whole selection |
| Selection.ToggleAppends | src/pages/index.tsx:327-329 | otherwise the section is appended, and the oldest pick is dropped when that would make three |
| Selection.ToggleKeepsBound | src/pages/index.tsx:322-331 | a selection of at most two stays at most two |
| Selection.ToggleTwiceRestores | src/pages/index.tsx:322-331 | selecting a new section and toggling it again gives back the earlier selection when it held at most one section |
| Selection.PickedForDayProperties | src/pages/index.tsx:333-338 | the result holds the section, no other pick on its day, and the other days' picks in their order |
| Selection.GroupPickedIsPair | src/pages/index.tsx:304-309 | a group that is not sold out is picked as its Monday section then its Thursday section, both with the label |
| Pricing.DayPrice | src/pages/index.tsx:63-66 | a day's price is positive exactly on the location's class days |
| Pricing.GroupCardPrice | src/pages/index.tsx:350-358 | a group card costs 380 exactly for label B, and 450 otherwise |
| Pricing.SectionCardPrice | src/pages/index.tsx:880 | a section's dollar price is its cents divided by 100 |
| Pricing.ButtonDollars | src/pages/index.tsx:880 | `toFixed(0)` gives the whole number nearest the dollar price, halves rounded away from zero |
| Pricing.ButtonShowsExactPrice | src/pages/index.tsx:880 | the button shows the exact dollar price exactly when the price is a whole number of dollars |
| Pricing.TwiceTotal | src/pages/index.tsx:350-358 | the TWICE total is nonzero exactly for two sections sharing a label, and is then that group's card price |
| Pricing.CalcTotalSugarLandAsWritten | src/pages/index.tsx:347-369 | as written: zero outside Sugar Land or without a plan; under ONCE, the raw cents of the one selected section |
| Pricing.CalcTotalSugarLand | src/pages/index.tsx:347-369 | zero outside Sugar Land or without a plan; under ONCE, the dollar price of the one selected section |
| Pricing.CalculateTotal | src/pages/index.tsx:704-712 | as written: zero before a location and a plan are chosen; Sugar Land ONCE gives the raw cents of the one selected section; Sugar Land TWICE gives the group total |
| Pricing.CalculateTotalCorrected | src/pages/index.tsx:704-712 | with the corrected Sugar Land total: zero before a location and a plan; Sugar Land ONCE gives the dollar price of the one section; every other case as written |
| Pricing.SugarLandTwiceTotal | src/pages/index.tsx:350-358 | a TWICE pair labelled B costs 380, any other same-label pair 450, and every other selection 0 |
| Pricing.GroupPickTotalMatchesCard | src/pages/index.tsx:304-309 | picking a group card makes the total, as written and corrected, the price printed on that card |
| Pricing.OncePickTotalMatchesCard | src/pages/index.tsx:322-326 | under ONCE, choosing a section makes the corrected total its dollar price, which is the price on its button when the price is a whole number of dollars |
| Pricing.OncePickTotalAsWritten | src/pages/index.tsx:360-365 | as written, the same choice totals a hundred times the dollar price, never the dollar price itself |
| Pricing.OnceTotalCounterexample | src/pages/index.tsx:360-365 | a section of 23000 cents shows $230 on its button, totals 23000 as written and 230 corrected |
| Pricing.KatyTotal | src/pages/index.tsx:709-710 | Katy TWICE costs 450; Katy ONCE costs the chosen day's price, which is positive exactly on a class day, and 0 with no day |
| Pricing.TotalNonNegative | src/pages/index.tsx:704-712 | with non-negative section prices neither total is negative |
| Ordinal.EnglishSuffix | src/pages/index.tsx:77-85 | on days 1 to 31: "st" exactly on 1, 21, 31; "nd" on 2, 22; "rd" on 3, 23; "th" otherwise |
| Ordinal.GetOrdinalDays | src/pages/index.tsx:77-85 | `getOrdinal` prints each day of a month with its English suffix |
| Ordinal.SuffixDays | src/pages/index.tsx:142-145 | `suffix` gives the English suffix on each day of a month |
| Ordinal.HelpersAgree | src/pages/index.tsx:77-85 | the two helpers agree on every number from 0 to 110 |
| Ordinal.HelpersDifferAt111 | src/pages/index.tsx:142-145 | at 111 `getOrdinal` says "st" and `suffix` says "th" |
| Ordinal.NegativeTakesTh | src/pages/index.tsx:80-84 | negative numbers take "th" in both helpers, as JavaScript's remainder is then not positive |
| RegisterApi.ValidationError | src/pages/api/register.ts:43-51 | no error exactly when the four contact fields are truthy, `selectedDays` is a non-empty list and `startDate` is truthy; otherwise one of the three messages |
| RegisterApi.Respond | src/pages/api/register.ts:8-102 | non-POST gets 405; a body that cannot be read gets 500; a failed check gets 400 with its message; a valid body gets 500 "Internal Server Error" when the create fails and 200 otherwise; success holds exactly at status 200 |
| RegisterApi.Created | src/pages/api/register.ts:75-92 | the stored row copies the request's fields, is PENDING, and has null waiver fields when the signature or its field is absent |
| RegisterApi.StudentTable.constructor | src/pages/api/register.ts:74-92 | the table starts with the given rows |
| RegisterApi.StudentTable.Register | src/pages/api/register.ts:7-103 | answers as `Respond`; appends exactly the created row when the request writes, and otherwise leaves the table alone |
| RegisterApi.OnlySuccessWrites | src/pages/api/register.ts:43-98 | a row is written exactly when the answer is 200 and a database client is present |
| RegisterApi.MissingFieldsReportedFirst | src/pages/api/register.ts:43-45 | a missing name, e-mail or phone is answered 400 "Missing required fields" whatever else is wrong |
| RegisterApi.DaysCheckedBeforeStartDate | src/pages/api/register.ts:46-51 | an absent or empty `selectedDays` is reported before a missing `startDate` |
| RegisterApi.UncheckedFields | src/pages/api/register.ts:76-88 | age, liability flag, location, frequency, payment method, waiver and section ids do not affect the answer, and age and liability flag are stored as given |
| WaitListApi.Respond | src/pages/api/waitList.ts:7-33 | non-POST gets 405; a missing required field gets 400 "Missing fields"; an unreadable body or a failing create gets 500 "Server error"; 200 is always the bare success, exactly when the six fields are truthy and the create succeeds |
| WaitListApi.Row | src/pages/api/waitList.ts:25-27 | the row holds the eight given fields |
| WaitListApi.WaitListTable.constructor | src/pages/api/waitList.ts:25-27 | the table starts with the given rows |
| WaitListApi.WaitListTable.Join | src/pages/api/waitList.ts:7-34 | answers as `Respond`; a 200 appends exactly one row, any other answer none |
| WaitListApi.AgeAndNotesOptional | src/pages/api/waitList.ts:21 | neither age nor notes decides acceptance |
| WaitListApi.EmptyCountsAsMissing | src/pages/api/waitList.ts:21-23 | an empty requested day is as missing as an absent one |
| Submission.GreedyCuts | src/pages/index.tsx:543 | the reading positions of the phone pattern are ordered and within the text, and each optional part is taken exactly when the next character fits it |
| Submission.PhoneMatches | src/pages/index.tsx:543 | an accepted phone number has 10 to 14 characters and ends in a digit |
| Submission.PhoneMatchesIff | src/pages/index.tsx:543 | the phone matcher accepts exactly the strings of `^\(?\d{3}\)?[-.\s]?\d{3}[-.\s]?\d{4}$` |
| Submission.PhoneMatchesSound | src/pages/index.tsx:543 | every accepted string has a reading as the pattern's seven parts |
| Submission.ShapeOfCuts | src/pages/index.tsx:543 | cut positions that fit the pattern give such a reading |
| Submission.SevenSlices | src/pages/index.tsx:543 | a text cut at six ordered positions is the concatenation of its pieces |
| Submission.DigitsAtSlice | src/pages/index.tsx:543 | digits at a position make the slice there all digits |
| Submission.PhoneMatchesComplete | src/pages/index.tsx:543 | every reading as the seven parts is accepted |
| Submission.CutsOfShape | src/pages/index.tsx:543 | a reading gives cut positions that fit the pattern |
| Submission.CutsMatch | src/pages/index.tsx:543 | fitting cut positions are the matcher's own, since no optional part is a digit |
| Submission.EmailMatchesIff | src/pages/index.tsx:544 | the e-mail matcher accepts exactly the strings of `^[^\s@]+@[^\s@]+\.[^\s@]+$` |
| Submission.EmailMatchesSound | src/pages/index.tsx:544 | every accepted string splits as user@host.tld with non-empty parts free of whitespace and '@' |
| Submission.EmailMatchesComplete | src/pages/index.tsx:544 | every such split is accepted |
| Submission.EmailMatches | src/pages/index.tsx:544 | an accepted address has at least five characters and an '@' that is neither first nor last |
| Submission.CleanName | src/pages/index.tsx:530-531 | a cleaned name is empty exactly when the input is blank, has no whitespace at either end, has only single spaces between words, and keeps every other character in order |
| Submission.StartDate | src/pages/index.tsx:28-41 | a start date is non-empty exactly on the location's class days |
| Submission.SectionIds | src/pages/index.tsx:606 | the ids of the selected sections, position by position |
| Submission.FormError | src/pages/index.tsx:536-579 | no error only when the cleaned fields are non-empty, the age is 1 to 17, a payment method is chosen and liability is accepted; the section-count messages never come from here |
| Submission.FirstFailureSpec | src/pages/index.tsx:536-604 | first-failure-wins: no message exactly when every check passes, otherwise the message of the earliest failing check |
| Submission.FormErrorIsFirstFailure | src/pages/index.tsx:536-579 | the nested early returns give the first failure of the six checks in source order: required fields, age, phone pattern, e-mail pattern, payment, liability |
| Submission.FormChecksByMatchers | src/pages/index.tsx:543-569 | the pattern checks can be decided by the two matchers |
| Submission.FirstFailureOfSix | src/pages/index.tsx:536-579 | over six checks the first failure is the one six nested early returns find |
| Submission.FirstFailurePrepend | src/pages/index.tsx:536-604 | a failing head check decides; a passing one defers to the rest |
| Submission.FirstFailureOfTwo | src/pages/index.tsx:599-604 | over two checks the first failure is the one two early returns find |
| Submission.SentForm | src/pages/index.tsx:585-645 | a sent form passed all six checks, has a location and an age, and sends the Sugar Land body exactly for Sugar Land and the Katy payload otherwise |
| Submission.Submit | src/pages/index.tsx:526-645 | a form that is sent or throws passed all six checks; a rejection other than a section-count message is the first failed check |
| Submission.Decide | src/pages/index.tsx:536-645 | a form error wins; it throws exactly with no error and no location; Katy is sent exactly with no error; a sent Sugar Land form has the section count its plan asks for; any other rejection is a section-count message |
| Submission.SubmitFollowsChecks | src/pages/index.tsx:526-604 | a submit shows the first failed check's message; after all six pass, a missing location throws, Katy is sent, and Sugar Land shows the first failed section-count check or is sent |
| Submission.DecideFollowsChecks | src/pages/index.tsx:536-604 | the same early-return structure, for any cleaned fields |
| Submission.SentBodyIsClean | src/pages/index.tsx:606-645 | a sent body carries the cleaned names and trimmed contacts, matches both patterns, has an age of 1 to 17, accepted liability, and the parent and e-mail as waiver |
| Submission.SugarLandSubmissionRefused | src/pages/index.tsx:606-621 | every sent Sugar Land body is answered 400 "selectedDays required" by the register handler and writes nothing |
| Submission.SugarLandBodyRefused | src/pages/api/register.ts:46-48 | a Sugar Land body with non-empty contact fields fails the `selectedDays` check |
| Submission.KatySubmissionChecked | src/pages/index.tsx:585-645 | a sent Katy payload passes the handler's checks exactly for a TWICE plan or a ONCE plan on a Katy class day; otherwise "startDate required" |
| Submission.KatyBodyChecked | src/pages/api/register.ts:43-51 | the same, for any Katy payload with non-empty contact fields |
| ActiveSession.Resolve | src/lib/getActiveSession.ts:18-29 | success exactly for a non-empty value that is a `Session` name; a missing or empty value fails "ACTIVE_SESSION not configured"; an unknown one fails "Invalid ACTIVE_SESSION: " plus the value |
| ActiveSession.Answer | src/lib/getActiveSession.ts:9-29 | a fresh entry answers with its value; otherwise the answer is the enum value of the row, or an error for a missing, empty or unknown row |
| ActiveSession.NextCache | src/lib/getActiveSession.ts:9-27 | a fresh entry is kept; a changed cache holds an enum value stamped with the second clock reading |
| ActiveSession.SessionCache.constructor | src/lib/getActiveSession.ts:4 | the cache starts empty |
| ActiveSession.SessionCache.GetActiveSession | src/lib/getActiveSession.ts:7-30 | the config is read exactly when the entry is not fresh; the answer and the new cache are `Answer` and `NextCache` |
| ActiveSession.FreshIgnoresRow | src/lib/getActiveSession.ts:9-11 | a fresh entry is returned and kept, whatever the row says |
| ActiveSession.StaleAtOneMinute | src/lib/getActiveSession.ts:9 | at exactly 60000 ms the entry is stale and the row decides |
| ActiveSession.ErrorKeepsCache | src/lib/getActiveSession.ts:18-24 | a failed call leaves the cache as it was |
| ActiveSession.OnlyReadsChangeCache | src/lib/getActiveSession.ts:26-27 | the cache changes only on a successful read, to that session stamped with the second clock reading |
| ActiveSession.ChangeInvisibleForAMinute | src/lib/getActiveSession.ts:9-27 | after a successful read, any call less than a minute past the stamp returns the same session whatever the setting now is |
| Backfill.FindSection | src/scripts/backfillEnrollments.ts:11-13 | none exactly when no section has the student's location and day; otherwise the first that does |
| Backfill.Upserted | src/scripts/backfillEnrollments.ts:18-28 | the pair is present afterwards, old rows are a prefix, and a row is added exactly when the pair was absent |
| Backfill.BackfillDay | src/scripts/backfillEnrollments.ts:11-28 | one day keeps the old rows as a prefix and adds at most one; with no section it writes nothing, otherwise the pair is present |
| Backfill.BackfillDays | src/scripts/backfillEnrollments.ts:9-30 | one student's days keep the old rows as a prefix and add at most one row per day |
| Backfill.BackfillStudents | src/scripts/backfillEnrollments.ts:8-31 | the whole run keeps the old rows as a prefix |
| Backfill.EnrollmentTable.constructor | src/scripts/backfillEnrollments.ts:6 | the table starts with the given rows |
| Backfill.EnrollmentTable.Upsert | src/scripts/backfillEnrollments.ts:18-28 | the table becomes `Upserted` of the old table |
| Backfill.EnrollmentTable.Run | src/scripts/backfillEnrollments.ts:5-32 | the nested loops leave the table `BackfillStudents` of the old table |
| Backfill.NoSectionSkips | src/scripts/backfillEnrollments.ts:14-17 | a day with no matching section writes nothing |
| Backfill.UpsertedPairs | src/scripts/backfillEnrollments.ts:18-28 | an upsert adds its own pair and no other |
| Backfill.UpsertKeepsUnique | src/scripts/backfillEnrollments.ts:19-21 | an upsert keeps (student, section) pairs unique |
| Backfill.BackfillDaysPairs | src/scripts/backfillEnrollments.ts:7-29 | after one student's days the table holds exactly the old pairs and the pairs those days ask for |
| Backfill.WantedBySnoc | src/scripts/backfillEnrollments.ts:7-13 | the pairs a list of days asks for are those of all but the last day and the last day's |
| Backfill.BackfillPairs | src/scripts/backfillEnrollments.ts:5-32 | the run ends with exactly the old pairs and the pairs the students' days ask for |
| Backfill.BackfillDaysGrows | src/scripts/backfillEnrollments.ts:18-28 | one student's days keep the old table as a prefix, keep pairs unique and add only ACTIVE rows |
| Backfill.BackfillGrows | src/scripts/backfillEnrollments.ts:5-32 | the run deletes and changes nothing, keeps pairs unique, and adds only ACTIVE rows |
| Backfill.BackfillDaysNoop | src/scripts/backfillEnrollments.ts:18-22 | when every asked-for pair is present, one student's days write nothing |
| Backfill.BackfillNoop | src/scripts/backfillEnrollments.ts:18-22 | when every asked-for pair is present, the run writes nothing |
| Backfill.Idempotent | src/scripts/backfillEnrollments.ts:18-28 | a second run on the same data leaves the table as the first left it |
| Admin.NextSort | src/pages/admin.tsx:79-83 | the key is the clicked one; the direction is descending exactly when the current sort is that key ascending |
| Admin.Compare | src/pages/admin.tsx:87-95 | on ages the comparator is zero exactly for equal ages and negative exactly when the first age comes first in the direction |
| Admin.DescendingSwaps | src/pages/admin.tsx:90-94 | descending compares the two students swapped |
| Admin.SortedStudents | src/pages/admin.tsx:85-97 | the view is a permutation of the students, and the list itself when no sort is set |
| Admin.ComparatorAntisymmetric | src/pages/admin.tsx:87-95 | the page's comparator is antisymmetric whenever `localeCompare` is |
| Admin.SortedStudentsOrdered | src/pages/admin.tsx:85-97 | with a sort set, every neighbouring pair is in the comparator's order |
| Admin.AgeSortOrder | src/pages/admin.tsx:90-91 | sorting by age gives non-decreasing ages ascending and non-increasing ages descending |
| Admin.PaidStudents | src/pages/admin.tsx:99 | the paid view holds only PAID students, each PAID student as often as in the sorted view |
| Admin.PaidStudentsKeepsOrder | src/pages/admin.tsx:99 | the paid view splits along any cut of the sorted view, so it keeps its order |
| Admin.Edit | src/pages/admin.tsx:67-69 | the edited cell holds the new value; every other cell of that student and every other student is unchanged |
| Admin.FirstChars | src/pages/admin.tsx:134 | `substring(0,10)` is the prefix of length ten, or the whole text when shorter |
| Admin.Shown | src/pages/admin.tsx:126-134 | a cell shows the edited value or else the stored one; the start date shows its first ten characters |
| Admin.EditShown | src/pages/admin.tsx:67-69 | after an edit, the edited cell shows the new value (cut to ten characters for the start date) and every other cell shows what it showed before |
| Admin.TileClassName | src/pages/admin.tsx:44-52 | a mark only in month view; "highlight-start" exactly when a start date falls on the tile; "highlight-event" exactly when none does and a custom event does |
| Admin.AdminState.constructor | src/pages/admin.tsx:25-38 | the page starts with the fetched students, no sort, no edits, no events, an empty note and the modal closed |
| Admin.AdminState.RequestSort | src/pages/admin.tsx:79-83 | the sort becomes `NextSort` of the old one; nothing else changes |
| Admin.AdminState.HandleChange | src/pages/admin.tsx:67-69 | the edit map becomes `Edit` of the old one; nothing else changes |
| Admin.AdminState.SaveEvent | src/pages/admin.tsx:247-256 | a note that is not blank appends exactly one event with the trimmed note, clears the note and closes the modal; a blank note changes nothing |

## Left out

- Rendering, scrolling, `useEffect` wiring and every `fetch` of the two pages are not modelled; they are UI and network I/O. The page handlers appear as the state changes they make.
- The date and locale formatters of `src/pages/index.tsx` (lines 68-160 and 230-259) are left out because they depend on JavaScript's `Date` and locale support. `Date.prototype.toDateString` in the admin calendar is an input.
- `parseInt` is an input: the form's age arrives as an optional integer.
- `localeCompare` is an input comparator. Sorting is a stable insertion sort. JavaScript's engine may order differently when the comparator is inconsistent, since it promises nothing then.
- Admin.SortedStudents: states the permutation and the comparator order, but not the exact placement of elements the comparator ties; the model's order for ties is insertion order.
- Prisma is modelled as in-memory tables or query results passed in; its errors are booleans or `None`. Prisma's rejection of an invalid enum value in a `where` filter is not modelled: in the backfill a null location or a non-enum day text simply matches no section.
- Concurrency between requests, including races between reads and writes, is not modelled.
- JavaScript prototype properties are not modelled. A location or day key such as "constructor" would reach `Object.prototype` in the class-count handler. In the session cache, the `in` test on the `Session` enum object is an input map from every name it finds to its value.
- Register body values are typed as the handler declares them. A `selectedDays` that is present but not an array is not represented.
- The client side of the waiting list (`handleWaitlistSubmit`) is not modelled; only its API route is.
- The admin page's `handleSave` request, the Cancel button, `fetchStudents` and the tab toggles are not modelled; they are network calls or display switches.
- `sendConfirmation.ts`, `register.tsx`, `prisma/seed.ts`, `getRegistrationStatus.ts` and the framework shell are not part of this model.
- Ordinal.GetOrdinal and Ordinal.Suffix carry no contract of their own; their lemmas state what they do.
- The JavaScript `Date.now()` calls of the session cache are the two clock parameters `now` and `storedAt`.
- Pricing.ButtonDollars: for a price between -50 and 0 cents `toFixed(0)` prints "-0"; the model gives the number 0, since only the number is compared with the total.
- Availability.GroupSoldOutIff: states the if-and-only-if only under at most one Sugar Land section per (day, label), which the listing does not guarantee across sessions; without it `GroupSoldOut` still states that a missing half sells the group out and that an offered group has both halves open.
- Availability.SugarlandSectionsByDayOrdered: the label order is stated for a `localeCompare` that never orders two labels both ways; the real collation is an input.

## Findings

| source | as written | input that shows it | evidently intended | confidence | as-written member | corrected member |
|---|---|---|---|---|---|---|
| src/pages/index.tsx:360-365 | the Sugar Land ONCE total returns `priceCents`, while every other total and the section's own button (line 880) are in dollars; `calculateTotal` (line 707) passes it on | one Sugar Land section priced 23000 cents: its button shows $230, the total shows $23000 | return `priceCents / 100`; the button rounds with `toFixed(0)`, so the two agree exactly for whole-dollar prices | high (not executed) | Pricing.OnceTotalCounterexample | Pricing.OncePickTotalMatchesCard |
