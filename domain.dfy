/**
 * The small finite domains shared by every page and API route of the
 * registration site: the two studio locations, the four class days, the
 * weekly frequency, the payment status of a student, and the per-location
 * class days (`daysMap`).
 */
module Domain {

  datatype Option<T> = None | Some(value: T)

  datatype Location = Katy | SugarLand

  datatype Day = Monday | Tuesday | Wednesday | Thursday

  /** The frequency chosen on the registration page ('ONCE' | 'TWICE'). */
  datatype Frequency = Once | Twice

  datatype PaymentStatus = Pending | Paid | Failed

  function LocationName(l: Location): string
  {
    match l
    case Katy => "KATY"
    case SugarLand => "SUGARLAND"
  }

  function DayName(d: Day): string
  {
    match d
    case Monday => "Monday"
    case Tuesday => "Tuesday"
    case Wednesday => "Wednesday"
    case Thursday => "Thursday"
  }

  function PaymentStatusName(p: PaymentStatus): string
  {
    match p
    case Pending => "PENDING"
    case Paid => "PAID"
    case Failed => "FAILED"
  }

  /** Reads a location key as the JavaScript object lookup `counts[loc]` does. */
  function ParseLocation(s: string): (r: Option<Location>)
    ensures forall l :: r == Some(l) <==> s == LocationName(l)
  {
    if s == "KATY" then Some(Katy)
    else if s == "SUGARLAND" then Some(SugarLand)
    else None
  }

  /** Reads a day key as the JavaScript object lookup `counts[loc][day]` does. */
  function ParseDay(s: string): (r: Option<Day>)
    ensures forall d :: r == Some(d) <==> s == DayName(d)
  {
    if s == "Monday" then Some(Monday)
    else if s == "Tuesday" then Some(Tuesday)
    else if s == "Wednesday" then Some(Wednesday)
    else if s == "Thursday" then Some(Thursday)
    else None
  }

  /** `daysMap`: the days on which a location holds class, in display order. */
  function ClassDays(loc: Location): (days: seq<Day>)
    ensures |days| == 2 && days[0] != days[1]
  {
    match loc
    case Katy => [Tuesday, Wednesday]
    case SugarLand => [Monday, Thursday]
  }

  predicate IsClassDay(loc: Location, d: Day)
  {
    d in ClassDays(loc)
  }

  /** The keys of `daysMap`, in insertion order. */
  const AllLocations: seq<Location> := [Katy, SugarLand]

  /** The keys of one location's count record, in insertion order. */
  const AllDays: seq<Day> := [Monday, Tuesday, Wednesday, Thursday]

  lemma AllLocationsListed(l: Location)
    ensures l in AllLocations
  {
  }

  lemma AllDaysListed(d: Day)
    ensures d in AllDays
  {
  }
}
