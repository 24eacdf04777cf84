/**
 * `handleSubmit` of the registration page (src/pages/index.tsx): the form
 * is cleaned, checked in a fixed order (the first failed check sets the
 * error and stops), and turned into the body POSTed to /api/register.
 * `parseInt` is abstract: the form carries its result, `None` for NaN.
 */
module Submission {
  import opened Domain
  import opened Text
  import opened SectionsApi
  import opened RegisterApi

  // ---------------------------------------------------------------------
  // The phone pattern /^\(?\d{3}\)?[-.\s]?\d{3}[-.\s]?\d{4}$/

  /** `[-.\s]`: a separator allowed between digit groups. */
  predicate IsPhoneSeparator(c: char)
  {
    c == '-' || c == '.' || IsWhitespace(c)
  }

  predicate AllDigits(s: string)
  {
    forall i :: 0 <= i < |s| ==> IsDigit(s[i])
  }

  /** `n` digits start at position `i`. */
  predicate DigitsAt(s: string, i: int, n: nat)
  {
    0 <= i && i + n <= |s| && forall t :: i <= t < i + n ==> IsDigit(s[t])
  }

  /**
   * Where a left-to-right reading puts the three digit groups (at `i`, `l`
   * and `n`) and where the closing parenthesis would sit (`k` is past it):
   * each optional part is taken when the next character fits it.
   */
  function GreedyCuts(s: string): (cuts: (int, int, int, int))
    ensures var (i, k, l, n) := cuts;
      0 <= i <= 1 && i + 3 <= k <= i + 4 && k <= l <= k + 1 && l + 3 <= n <= l + 4 &&
      (i == 1 <==> |s| > 0 && s[0] == '(') &&
      (k == i + 4 <==> i + 3 < |s| && s[i + 3] == ')') &&
      (l == k + 1 <==> k < |s| && IsPhoneSeparator(s[k])) &&
      (n == l + 4 <==> l + 3 < |s| && IsPhoneSeparator(s[l + 3]))
  {
    var i := if |s| > 0 && s[0] == '(' then 1 else 0;
    var k := if i + 3 < |s| && s[i + 3] == ')' then i + 4 else i + 3;
    var l := if k < |s| && IsPhoneSeparator(s[k]) then k + 1 else k;
    var n := if l + 3 < |s| && IsPhoneSeparator(s[l + 3]) then l + 4 else l + 3;
    (i, k, l, n)
  }

  /** The matcher: no backtracking is needed, since no optional part can be a digit. */
  function PhoneMatches(s: string): bool
    ensures PhoneMatches(s) ==> 10 <= |s| <= 14 && IsDigit(s[|s| - 1])
  {
    var (i, k, l, n) := GreedyCuts(s);
    DigitsAt(s, i, 3) && DigitsAt(s, l, 3) && DigitsAt(s, n, 4) && n + 4 == |s|
  }

  predicate OptionalSeparator(x: string)
  {
    x == [] || (|x| == 1 && IsPhoneSeparator(x[0]))
  }

  /** One way of reading `s` as the pattern's seven parts. */
  ghost predicate PhoneShape(s: string, open: string, a: string, close: string, sep1: string, b: string, sep2: string, c: string)
  {
    s == open + a + close + sep1 + b + sep2 + c &&
    (open == [] || open == "(") && (close == [] || close == ")") &&
    OptionalSeparator(sep1) && OptionalSeparator(sep2) &&
    |a| == 3 && |b| == 3 && |c| == 4 && AllDigits(a) && AllDigits(b) && AllDigits(c)
  }

  /** The strings the phone pattern describes. */
  ghost predicate InPhoneLanguage(s: string)
  {
    exists open, a, close, sep1, b, sep2, c :: PhoneShape(s, open, a, close, sep1, b, sep2, c)
  }

  /** The positions where the seven parts of a reading of `s` start, and what each part holds. */
  predicate PhoneCuts(s: string, i: int, k: int, l: int, n: int)
  {
    0 <= i <= 1 && i + 3 <= k <= i + 4 && k <= l <= k + 1 && l + 3 <= n <= l + 4 && n + 4 == |s| &&
    (i == 1 ==> s[0] == '(') && (k == i + 4 ==> s[i + 3] == ')') &&
    (l == k + 1 ==> IsPhoneSeparator(s[k])) && (n == l + 4 ==> IsPhoneSeparator(s[l + 3])) &&
    DigitsAt(s, i, 3) && DigitsAt(s, l, 3) && DigitsAt(s, n, 4)
  }

  /** The matcher accepts exactly the strings of the pattern. */
  lemma PhoneMatchesIff(s: string)
    ensures PhoneMatches(s) <==> InPhoneLanguage(s)
  {
    if PhoneMatches(s) {
      PhoneMatchesSound(s);
    }
    if InPhoneLanguage(s) {
      var open, a, close, sep1, b, sep2, c :| PhoneShape(s, open, a, close, sep1, b, sep2, c);
      PhoneMatchesComplete(s, open, a, close, sep1, b, sep2, c);
    }
  }

  lemma PhoneMatchesSound(s: string)
    requires PhoneMatches(s)
    ensures InPhoneLanguage(s)
  {
    var (i, k, l, n) := GreedyCuts(s);
    ShapeOfCuts(s, i, k, l, n);
  }

  lemma ShapeOfCuts(s: string, i: int, k: int, l: int, n: int)
    requires PhoneCuts(s, i, k, l, n)
    ensures PhoneShape(s, s[..i], s[i..i + 3], s[i + 3..k], s[k..l], s[l..l + 3], s[l + 3..n], s[n..])
  {
    SevenSlices(s, i, i + 3, k, l, l + 3, n);
    DigitsAtSlice(s, i, 3);
    DigitsAtSlice(s, l, 3);
    var c := s[n..];
    assert |c| == 4;
    forall t | 0 <= t < 4
      ensures IsDigit(c[t])
    {
      assert c[t] == s[n + t];
    }
    assert i == 1 ==> s[..i] == [s[0]];
    assert k == i + 4 ==> s[i + 3..k] == [s[i + 3]];
  }

  /** Cutting a sequence at six ordered positions and gluing the pieces gives it back. */
  lemma SevenSlices(s: string, i: int, j: int, k: int, l: int, m: int, n: int)
    requires 0 <= i <= j <= k <= l <= m <= n <= |s|
    ensures s == s[..i] + s[i..j] + s[j..k] + s[k..l] + s[l..m] + s[m..n] + s[n..]
  {
    assert s[..i] + s[i..j] == s[..j];
    assert s[..j] + s[j..k] == s[..k];
    assert s[..k] + s[k..l] == s[..l];
    assert s[..l] + s[l..m] == s[..m];
    assert s[..m] + s[m..n] == s[..n];
    assert s[..n] + s[n..] == s;
  }

  lemma DigitsAtSlice(s: string, i: int, n: nat)
    requires DigitsAt(s, i, n)
    ensures |s[i..i + n]| == n && AllDigits(s[i..i + n])
  {
    var d := s[i..i + n];
    forall t | 0 <= t < n
      ensures IsDigit(d[t])
    {
      assert d[t] == s[i + t];
    }
  }

  lemma PhoneMatchesComplete(s: string, open: string, a: string, close: string, sep1: string, b: string, sep2: string, c: string)
    requires PhoneShape(s, open, a, close, sep1, b, sep2, c)
    ensures PhoneMatches(s)
  {
    var i := |open|;
    var k := i + 3 + |close|;
    var l := k + |sep1|;
    var n := l + 3 + |sep2|;
    CutsOfShape(s, open, a, close, sep1, b, sep2, c);
    CutsMatch(s, i, k, l, n);
  }

  lemma CutsOfShape(s: string, open: string, a: string, close: string, sep1: string, b: string, sep2: string, c: string)
    requires PhoneShape(s, open, a, close, sep1, b, sep2, c)
    ensures PhoneCuts(s, |open|, |open| + 3 + |close|, |open| + 3 + |close| + |sep1|, |open| + 3 + |close| + |sep1| + 3 + |sep2|)
  {
    var i := |open|;
    var k := i + 3 + |close|;
    var l := k + |sep1|;
    var n := l + 3 + |sep2|;
    assert forall t :: 0 <= t < 3 ==> s[i + t] == a[t];
    assert forall t :: 0 <= t < 3 ==> s[l + t] == b[t];
    assert forall t :: 0 <= t < 4 ==> s[n + t] == c[t];
    assert open != [] ==> s[0] == '(';
    assert close != [] ==> s[i + 3] == ')';
    assert sep1 != [] ==> s[k] == sep1[0];
    assert sep2 != [] ==> s[l + 3] == sep2[0];
  }

  /** Every reading's cuts are the ones the matcher finds, since no optional part can be a digit. */
  lemma CutsMatch(s: string, i: int, k: int, l: int, n: int)
    requires PhoneCuts(s, i, k, l, n)
    ensures PhoneMatches(s)
  {
    assert IsDigit(s[i]) && IsDigit(s[l]) && IsDigit(s[n]);
  }

  // ---------------------------------------------------------------------
  // The e-mail pattern /^[^\s@]+@[^\s@]+\.[^\s@]+$/

  /** `[^\s@]`. */
  predicate IsEmailChar(c: char)
  {
    !IsWhitespace(c) && c != '@'
  }

  predicate AllEmailChars(s: string)
  {
    forall i :: 0 <= i < |s| ==> IsEmailChar(s[i])
  }

  /** A matcher: split at the first '@'; the rest must hold a dot strictly inside it. */
  function EmailMatches(s: string): bool
    ensures EmailMatches(s) ==> |s| >= 5 && IndexOf(s, '@') < |s| && s[0] != '@' && s[|s| - 1] != '@'
  {
    var at := IndexOf(s, '@');
    if at == |s| || at == 0 || !AllEmailChars(s[..at]) then false
    else
      var rest := s[at + 1..];
      AllEmailChars(rest) && |rest| >= 3 && IndexOf(rest[1..|rest| - 1], '.') < |rest| - 2
  }

  ghost predicate EmailShape(s: string, user: string, host: string, tld: string)
  {
    s == user + "@" + host + "." + tld &&
    user != [] && host != [] && tld != [] &&
    AllEmailChars(user) && AllEmailChars(host) && AllEmailChars(tld)
  }

  /** The strings the e-mail pattern describes. */
  ghost predicate InEmailLanguage(s: string)
  {
    exists user, host, tld :: EmailShape(s, user, host, tld)
  }

  /** The matcher accepts exactly the strings of the pattern. */
  lemma EmailMatchesIff(s: string)
    ensures EmailMatches(s) <==> InEmailLanguage(s)
  {
    if EmailMatches(s) {
      EmailMatchesSound(s);
    }
    if InEmailLanguage(s) {
      var user, host, tld :| EmailShape(s, user, host, tld);
      EmailMatchesComplete(s, user, host, tld);
    }
  }

  lemma EmailMatchesSound(s: string)
    requires EmailMatches(s)
    ensures InEmailLanguage(s)
  {
    var at := IndexOf(s, '@');
    var rest := s[at + 1..];
    var d := IndexOf(rest[1..|rest| - 1], '.') + 1;
    assert rest[d] == '.';
    var user, host, tld := s[..at], rest[..d], rest[d + 1..];
    assert rest == host + "." + tld;
    assert s == user + "@" + rest;
    assert EmailShape(s, user, host, tld);
  }

  lemma EmailMatchesComplete(s: string, user: string, host: string, tld: string)
    requires EmailShape(s, user, host, tld)
    ensures EmailMatches(s)
  {
    var at := |user|;
    assert s[at] == '@';
    assert forall t :: 0 <= t < at ==> s[t] == user[t];
    assert IndexOf(s, '@') == at;
    assert s[..at] == user;
    var rest := s[at + 1..];
    assert rest == host + "." + tld;
    assert AllEmailChars(rest) by {
      forall t | 0 <= t < |rest|
        ensures IsEmailChar(rest[t])
      {
        if t < |host| {
          assert rest[t] == host[t];
        } else if t > |host| {
          assert rest[t] == tld[t - |host| - 1];
        }
      }
    }
    var middle := rest[1..|rest| - 1];
    assert middle[|host| - 1] == '.';
  }

  // ---------------------------------------------------------------------
  // Cleaning and the check chain

  /** `s.trim().replace(/\s+/g, ' ')`: the name's characters other than white space are kept, in order. */
  function CleanName(s: string): (r: string)
    ensures NonWhite(r) == NonWhite(s)
    ensures r == [] <==> AllWhitespace(s)
    ensures r == [] || (!IsWhitespace(r[0]) && !IsWhitespace(r[|r| - 1]))
    ensures forall i :: 0 <= i < |r| && IsWhitespace(r[i]) ==> r[i] == ' '
    ensures forall i :: 0 <= i < |r| - 1 ==> !(IsWhitespace(r[i]) && IsWhitespace(r[i + 1]))
  {
    TrimEmptyIff(s);
    CollapseKeepsNonWhite(Trim(s));
    CollapseWhitespace(Trim(s))
  }

  /** The form state `handleSubmit` reads; `age` is `parseInt` of the age field. */
  datatype Form = Form(
    studentName: string,
    age: Option<int>,
    parentName: string,
    phone: string,
    email: string,
    paymentMethod: string,
    liabilityAccepted: bool,
    location: Option<Location>,
    frequency: Option<Frequency>,
    selectedDay: Option<Day>,
    selectedSections: seq<SectionView>)

  /**
   * What a submit does: show an error, throw (a `TypeError` from indexing the
   * day tables with a null location), or POST a body to /api/register.
   */
  datatype Outcome = Rejected(error: FormMessage) | Crashed | SentSugarLand(body: RegisterBody) | SentKaty(body: RegisterBody)

  /** The errors `handleSubmit` can show. */
  datatype FormMessage =
    | MsgRequired | MsgAge | MsgPhone | MsgEmail | MsgPayment | MsgLiability
    | MsgOneSection | MsgTwoSections

  /** The text shown for each error. */
  function MessageText(m: FormMessage): string
  {
    match m
    case MsgRequired => "All fields are required."
    case MsgAge => "Please enter a valid student age between 1 and 17."
    case MsgPhone => "Please enter a valid 10-digit phone number."
    case MsgEmail => "Please enter a valid email address."
    case MsgPayment => "Please select a payment method."
    case MsgLiability => "You must accept the liability disclaimer to continue."
    case MsgOneSection => "Please choose one section"
    case MsgTwoSections => "Please choose two sections"
  }

  /** `startDates[loc][day]`: the first class date, empty on the days a location does not teach. */
  function StartDate(loc: Location, day: Day): (date: string)
    ensures date != "" <==> IsClassDay(loc, day)
  {
    match (loc, day)
    case (Katy, Tuesday) => "2025-08-26"
    case (Katy, Wednesday) => "2025-08-27"
    case (SugarLand, Monday) => "2025-08-25"
    case (SugarLand, Thursday) => "2025-08-28"
    case _ => ""
  }

  /** `selectedSections.map(s => s.id)`. */
  function SectionIds(sections: seq<SectionView>): (ids: seq<string>)
    ensures |ids| == |sections| && forall i :: 0 <= i < |ids| ==> ids[i] == sections[i].id
  {
    if sections == [] then [] else [sections[0].id] + SectionIds(sections[1..])
  }

  /** The four text fields after cleaning: names collapsed, contacts trimmed. */
  datatype Cleaned = Cleaned(studentName: string, parentName: string, email: string, phone: string)

  function Clean(f: Form): Cleaned
  {
    Cleaned(CleanName(f.studentName), CleanName(f.parentName), Trim(f.email), Trim(f.phone))
  }

  /**
   * The first six checks, in order, on the cleaned fields: the first that fails
   * gives the error shown.
   */
  function FormError(f: Form, c: Cleaned): (err: Option<FormMessage>)
    ensures err.None? ==>
      c.studentName != [] && c.parentName != [] && c.email != [] && c.phone != [] &&
      f.age.Some? && 1 <= f.age.value <= 17 && f.paymentMethod != "" && f.liabilityAccepted
    ensures err.Some? ==> err.value != MsgOneSection && err.value != MsgTwoSections
  {
    if c.studentName == [] || c.parentName == [] || c.email == [] || c.phone == [] then Some(MsgRequired)
    else if f.age.None? || f.age.value < 1 || f.age.value > 17 then Some(MsgAge)
    else if !PhoneMatches(c.phone) then Some(MsgPhone)
    else if !EmailMatches(c.email) then Some(MsgEmail)
    else if f.paymentMethod == "" then Some(MsgPayment)
    else if !f.liabilityAccepted then Some(MsgLiability)
    else None
  }

  /** The Sugar Land body: the cleaned fields, the waiver and the section ids; no days, no start date. */
  function SugarLandBody(f: Form, c: Cleaned): RegisterBody
    requires f.age.Some?
  {
    RegisterBody(Some(c.studentName), Some(f.age.value), Some(c.parentName), Some(c.phone), Some(c.email),
                 None, None, None, None, Some(true), Some(f.paymentMethod),
                 Some(WaiverSignature(Some(c.parentName), Some(c.email))), Some(SectionIds(f.selectedSections)))
  }

  /** The legacy Katy payload; a ONCE plan without a chosen day sends `[null]` and no start date. */
  function KatyBody(f: Form, c: Cleaned): RegisterBody
    requires f.age.Some?
  {
    var once := f.frequency == Some(Once);
    var days: seq<Option<string>> :=
      if once then [if f.selectedDay.Some? then Some(DayName(f.selectedDay.value)) else None]
      else [Some(DayName(ClassDays(Katy)[0])), Some(DayName(ClassDays(Katy)[1]))];
    var startDate :=
      if once then (if f.selectedDay.Some? then Some(StartDate(Katy, f.selectedDay.value)) else None)
      else Some(StartDate(Katy, ClassDays(Katy)[0]));
    RegisterBody(Some(c.studentName), Some(f.age.value), Some(c.parentName), Some(c.phone), Some(c.email),
                 Some(LocationName(Katy)), Some(if once then "ONCE" else "TWICE"), Some(days), startDate,
                 Some(true), Some(f.paymentMethod), Some(WaiverSignature(Some(c.parentName), Some(c.email))), None)
  }

  /**
   * `handleSubmit`: clean the form, then run the chain of early returns. A
   * form is sent only when all six checks pass, and the error of every other
   * rejection is the first check that fails.
   */
  function Submit(f: Form): (o: Outcome)
    ensures o.SentSugarLand? || o.SentKaty? || o.Crashed? ==> FirstFailure(FormChecks(f)).None?
    ensures o.Rejected? && o.error != MsgOneSection && o.error != MsgTwoSections ==>
      FirstFailure(FormChecks(f)) == Some(o.error)
  {
    FormErrorIsFirstFailure(f);
    Decide(f, Clean(f))
  }

  /**
   * The chain of early returns, on already cleaned fields: a form error wins;
   * a form without a location throws; Sugar Land checks the section count
   * against the plan; Katy is sent as it is.
   */
  function Decide(f: Form, c: Cleaned): (o: Outcome)
    ensures FormError(f, c).Some? ==> o == Rejected(FormError(f, c).value)
    ensures o.Crashed? <==> FormError(f, c).None? && f.location.None?
    ensures o.SentKaty? <==> FormError(f, c).None? && f.location == Some(Katy)
    ensures o.SentSugarLand? ==>
      FormError(f, c).None? && f.location == Some(SugarLand) &&
      (f.frequency == Some(Once) ==> |f.selectedSections| == 1) &&
      (f.frequency == Some(Twice) ==> |f.selectedSections| == 2)
    ensures o.Rejected? && FormError(f, c).None? ==>
      f.location == Some(SugarLand) && (o.error == MsgOneSection || o.error == MsgTwoSections)
  {
    var err := FormError(f, c);
    if err.Some? then Rejected(err.value)
    else if f.location.None? then Crashed
    else if f.location.value == SugarLand then
      if f.frequency == Some(Once) && |f.selectedSections| != 1 then Rejected(MsgOneSection)
      else if f.frequency == Some(Twice) && |f.selectedSections| != 2 then Rejected(MsgTwoSections)
      else SentSugarLand(SugarLandBody(f, c))
    else
      assert f.location.Some? && f.location.value != SugarLand;
      SentKaty(KatyBody(f, c))
  }

  // ---------------------------------------------------------------------
  // The chain as a list of checks

  datatype Check = Check(passes: bool, message: FormMessage)

  /** The message of the first failed check. */
  function FirstFailure(checks: seq<Check>): Option<FormMessage>
  {
    if checks == [] then None
    else if !checks[0].passes then Some(checks[0].message)
    else FirstFailure(checks[1..])
  }

  /** `FirstFailure` is `None` exactly when every check passes, and otherwise the message of the earliest failure. */
  lemma {:induction false} FirstFailureSpec(checks: seq<Check>)
    ensures FirstFailure(checks).None? <==> forall i :: 0 <= i < |checks| ==> checks[i].passes
    ensures FirstFailure(checks).Some? ==>
      exists i :: 0 <= i < |checks| && !checks[i].passes && checks[i].message == FirstFailure(checks).value &&
                  forall j :: 0 <= j < i ==> checks[j].passes
  {
    if checks != [] && checks[0].passes {
      var rest := checks[1..];
      FirstFailureSpec(rest);
      assert forall i :: 1 <= i < |checks| ==> checks[i] == rest[i - 1];
      if FirstFailure(rest).Some? {
        var i :| 0 <= i < |rest| && !rest[i].passes && rest[i].message == FirstFailure(rest).value &&
                 forall j :: 0 <= j < i ==> rest[j].passes;
        assert !checks[i + 1].passes && forall j :: 0 <= j < i + 1 ==> checks[j].passes;
      }
    }
  }

  /** The six checks every submission goes through, in order. */
  ghost function FormChecks(f: Form): seq<Check>
  {
    var phone := Trim(f.phone);
    var email := Trim(f.email);
    [Check(!AllWhitespace(f.studentName) && !AllWhitespace(f.parentName) && email != [] && phone != [], MsgRequired),
     Check(f.age.Some? && 1 <= f.age.value <= 17, MsgAge),
     Check(InPhoneLanguage(phone), MsgPhone),
     Check(InEmailLanguage(email), MsgEmail),
     Check(f.paymentMethod != "", MsgPayment),
     Check(f.liabilityAccepted, MsgLiability)]
  }

  /** The two section-count checks of a Sugar Land submission. */
  function SectionChecks(f: Form): seq<Check>
  {
    [Check(!(f.frequency == Some(Once) && |f.selectedSections| != 1), MsgOneSection),
     Check(!(f.frequency == Some(Twice) && |f.selectedSections| != 2), MsgTwoSections)]
  }

  /** The nested checks give the same error as the first failure of the check list. */
  lemma FormErrorIsFirstFailure(f: Form)
    ensures FormError(f, Clean(f)) == FirstFailure(FormChecks(f))
  {
    var c := Clean(f);
    FormErrorChain(f, c);
    FormChecksByMatchers(f, c);
    FirstFailureOfSix(
      c.studentName != [] && c.parentName != [] && c.email != [] && c.phone != [],
      f.age.Some? && 1 <= f.age.value <= 17,
      PhoneMatches(c.phone), EmailMatches(c.email),
      f.paymentMethod != "", f.liabilityAccepted,
      MsgRequired, MsgAge, MsgPhone, MsgEmail, MsgPayment, MsgLiability);
  }

  /** `FormError` as one early return per check. */
  lemma FormErrorChain(f: Form, c: Cleaned)
    ensures FormError(f, c) ==
      if !(c.studentName != [] && c.parentName != [] && c.email != [] && c.phone != []) then Some(MsgRequired)
      else if !(f.age.Some? && 1 <= f.age.value <= 17) then Some(MsgAge)
      else if !PhoneMatches(c.phone) then Some(MsgPhone)
      else if !EmailMatches(c.email) then Some(MsgEmail)
      else if f.paymentMethod == "" then Some(MsgPayment)
      else if !f.liabilityAccepted then Some(MsgLiability)
      else None
  {
  }

  /** The check list, with the two patterns decided by the matchers. */
  lemma FormChecksByMatchers(f: Form, c: Cleaned)
    requires c == Clean(f)
    ensures FormChecks(f) ==
      [Check(c.studentName != [] && c.parentName != [] && c.email != [] && c.phone != [], MsgRequired),
       Check(f.age.Some? && 1 <= f.age.value <= 17, MsgAge),
       Check(PhoneMatches(c.phone), MsgPhone),
       Check(EmailMatches(c.email), MsgEmail),
       Check(f.paymentMethod != "", MsgPayment),
       Check(f.liabilityAccepted, MsgLiability)]
  {
    PhoneMatchesIff(c.phone);
    EmailMatchesIff(c.email);
  }

  /** On a list of six checks, the first failure is the one the early returns find. */
  lemma FirstFailureOfSix(b0: bool, b1: bool, b2: bool, b3: bool, b4: bool, b5: bool,
                          m0: FormMessage, m1: FormMessage, m2: FormMessage, m3: FormMessage, m4: FormMessage, m5: FormMessage)
    ensures FirstFailure([Check(b0, m0), Check(b1, m1), Check(b2, m2), Check(b3, m3), Check(b4, m4), Check(b5, m5)]) ==
      if !b0 then Some(m0) else if !b1 then Some(m1) else if !b2 then Some(m2) else if !b3 then Some(m3)
      else if !b4 then Some(m4) else if !b5 then Some(m5) else None
  {
    var c5 := [Check(b5, m5)] + [];
    var c4 := [Check(b4, m4)] + c5;
    var c3 := [Check(b3, m3)] + c4;
    var c2 := [Check(b2, m2)] + c3;
    var c1 := [Check(b1, m1)] + c2;
    var c0 := [Check(b0, m0)] + c1;
    FirstFailurePrepend(Check(b5, m5), []);
    FirstFailurePrepend(Check(b4, m4), c5);
    FirstFailurePrepend(Check(b3, m3), c4);
    FirstFailurePrepend(Check(b2, m2), c3);
    FirstFailurePrepend(Check(b1, m1), c2);
    FirstFailurePrepend(Check(b0, m0), c1);
    assert c0 == [Check(b0, m0), Check(b1, m1), Check(b2, m2), Check(b3, m3), Check(b4, m4), Check(b5, m5)];
  }

  lemma FirstFailurePrepend(c: Check, rest: seq<Check>)
    ensures FirstFailure([c] + rest) == if !c.passes then Some(c.message) else FirstFailure(rest)
  {
    assert ([c] + rest)[1..] == rest;
  }

  /** What a sent submission has passed, and which body it sends. */
  lemma SentForm(f: Form, c: Cleaned)
    requires Decide(f, c).SentSugarLand? || Decide(f, c).SentKaty?
    ensures FormError(f, c).None? && f.location.Some? && f.age.Some?
    ensures Decide(f, c).SentSugarLand? <==> f.location == Some(SugarLand)
    ensures Decide(f, c).SentSugarLand? ==> Decide(f, c).body == SugarLandBody(f, c)
    ensures Decide(f, c).SentKaty? ==> Decide(f, c).body == KatyBody(f, c)
  {
  }

  /** On a list of two checks, the first failure is the one the early returns find. */
  lemma FirstFailureOfTwo(b0: bool, b1: bool, m0: FormMessage, m1: FormMessage)
    ensures FirstFailure([Check(b0, m0), Check(b1, m1)]) ==
      if !b0 then Some(m0) else if !b1 then Some(m1) else None
  {
    FirstFailurePrepend(Check(b1, m1), []);
    FirstFailurePrepend(Check(b0, m0), [Check(b1, m1)] + []);
    assert [Check(b0, m0)] + ([Check(b1, m1)] + []) == [Check(b0, m0), Check(b1, m1)];
  }

  /**
   * A submission shows the message of the first failed check; when all six
   * pass, a missing location throws, a Sugar Land form goes on to the section
   * checks and a Katy form is sent.
   */
  lemma SubmitFollowsChecks(f: Form)
    ensures var first := FirstFailure(FormChecks(f));
            (first.Some? ==> Submit(f) == Rejected(first.value)) &&
            (first.None? && f.location.None? ==> Submit(f) == Crashed) &&
            (first.None? && f.location == Some(Katy) ==> Submit(f).SentKaty?)
    ensures var first := FirstFailure(FormChecks(f));
            var second := FirstFailure(SectionChecks(f));
            first.None? && f.location == Some(SugarLand) ==>
              (second.Some? ==> Submit(f) == Rejected(second.value)) &&
              (second.None? ==> Submit(f).SentSugarLand?)
  {
    FormErrorIsFirstFailure(f);
    DecideFollowsChecks(f, Clean(f));
  }

  /** The chain of early returns, for any cleaned fields. */
  lemma DecideFollowsChecks(f: Form, c: Cleaned)
    ensures var first := FormError(f, c);
            (first.Some? ==> Decide(f, c) == Rejected(first.value)) &&
            (first.None? && f.location.None? ==> Decide(f, c) == Crashed) &&
            (first.None? && f.location == Some(Katy) ==> Decide(f, c).SentKaty?)
    ensures var first := FormError(f, c);
            var second := FirstFailure(SectionChecks(f));
            first.None? && f.location == Some(SugarLand) ==>
              (second.Some? ==> Decide(f, c) == Rejected(second.value)) &&
              (second.None? ==> Decide(f, c).SentSugarLand?)
  {
    FirstFailureOfTwo(!(f.frequency == Some(Once) && |f.selectedSections| != 1),
                      !(f.frequency == Some(Twice) && |f.selectedSections| != 2),
                      MsgOneSection, MsgTwoSections);
  }

  /** Only a submission that passes every check is sent, and then with cleaned names and trimmed contacts. */
  lemma SentBodyIsClean(f: Form)
    requires Submit(f).SentSugarLand? || Submit(f).SentKaty?
    ensures var b := Submit(f).body;
            b.studentName == Some(CleanName(f.studentName)) && b.parentName == Some(CleanName(f.parentName)) &&
            b.phone == Some(Trim(f.phone)) && b.email == Some(Trim(f.email)) &&
            InPhoneLanguage(Trim(f.phone)) && InEmailLanguage(Trim(f.email)) &&
            b.age.Some? && 1 <= b.age.value <= 17 && b.liabilityAccepted == Some(true) &&
            b.waiverSignature == Some(WaiverSignature(b.parentName, b.email))
  {
    SentForm(f, Clean(f));
    PhoneMatchesIff(Trim(f.phone));
    EmailMatchesIff(Trim(f.email));
  }

  /**
   * The Sugar Land body carries no `selectedDays`, so the register handler
   * refuses every Sugar Land submission with 400 "selectedDays required".
   */
  lemma SugarLandSubmissionRefused(f: Form, clientPresent: bool, createFails: bool)
    requires Submit(f).SentSugarLand?
    ensures Respond("POST", Some(Submit(f).body), clientPresent, createFails) ==
            ApiResponse(400, false, Some("selectedDays required"))
    ensures !Writes("POST", Some(Submit(f).body), clientPresent, createFails)
  {
    SentForm(f, Clean(f));
    SugarLandBodyRefused(f, Clean(f), clientPresent, createFails);
  }

  lemma SugarLandBodyRefused(f: Form, c: Cleaned, clientPresent: bool, createFails: bool)
    requires f.age.Some? && c.studentName != [] && c.parentName != [] && c.email != [] && c.phone != []
    ensures Respond("POST", Some(SugarLandBody(f, c)), clientPresent, createFails) ==
            ApiResponse(400, false, Some("selectedDays required"))
    ensures !Writes("POST", Some(SugarLandBody(f, c)), clientPresent, createFails)
  {
  }

  /**
   * A Katy submission passes the register handler's checks exactly when it is
   * a two-day plan or a one-day plan on a Katy class day; otherwise the start
   * date is missing or empty.
   */
  lemma KatySubmissionChecked(f: Form)
    requires Submit(f).SentKaty?
    ensures var err := ValidationError(Submit(f).body);
            (err.None? <==> f.frequency != Some(Once) || (f.selectedDay.Some? && IsClassDay(Katy, f.selectedDay.value))) &&
            (err.Some? ==> err == Some("startDate required"))
  {
    SentForm(f, Clean(f));
    KatyBodyChecked(f, Clean(f));
  }

  lemma KatyBodyChecked(f: Form, c: Cleaned)
    requires f.age.Some? && c.studentName != [] && c.parentName != [] && c.email != [] && c.phone != []
    ensures var err := ValidationError(KatyBody(f, c));
            (err.None? <==> f.frequency != Some(Once) || (f.selectedDay.Some? && IsClassDay(Katy, f.selectedDay.value))) &&
            (err.Some? ==> err == Some("startDate required"))
  {
  }
}
