/**
 * POST /api/register (src/pages/api/register.ts): a short chain of checks
 * on the JSON body, then one `student.create`. The student table is an
 * object whose only change is that append. Whether a database client is
 * configured and whether the create throws are inputs.
 *
 * JSON values are typed as the handler declares them; `None` stands for an
 * absent field or `null`. A string field is falsy when it is `None` or "".
 */
module RegisterApi {
  import opened Domain

  datatype WaiverSignature = WaiverSignature(name: Option<string>, address: Option<string>)

  /** The request body. `sectionIds` is sent by the Sugar Land form but never read. */
  datatype RegisterBody = RegisterBody(
    studentName: Option<string>,
    age: Option<int>,
    parentName: Option<string>,
    phone: Option<string>,
    email: Option<string>,
    location: Option<string>,
    frequency: Option<string>,
    selectedDays: Option<seq<Option<string>>>,
    startDate: Option<string>,
    liabilityAccepted: Option<bool>,
    paymentMethod: Option<string>,
    waiverSignature: Option<WaiverSignature>,
    sectionIds: Option<seq<string>>)

  /** A `Student` row as the handler creates it; `startDate` is the text later given to `new Date`. */
  datatype StudentRecord = StudentRecord(
    studentName: string,
    age: Option<int>,
    parentName: string,
    phone: string,
    email: string,
    location: Option<string>,
    frequency: Option<string>,
    selectedDays: seq<Option<string>>,
    startDate: string,
    paymentStatus: PaymentStatus,
    paymentMethod: Option<string>,
    liabilityAccepted: Option<bool>,
    waiverName: Option<string>,
    waiverAddress: Option<string>)

  datatype ApiResponse = ApiResponse(status: int, success: bool, error: Option<string>)

  /** JavaScript truthiness of an optional string. */
  predicate Truthy(s: Option<string>)
  {
    s.Some? && s.value != ""
  }

  /** The first failed check, in the handler's order, or `None` when the body passes. */
  function ValidationError(b: RegisterBody): (err: Option<string>)
    ensures err.None? <==>
      Truthy(b.studentName) && Truthy(b.parentName) && Truthy(b.email) && Truthy(b.phone) &&
      b.selectedDays.Some? && |b.selectedDays.value| > 0 && Truthy(b.startDate)
    ensures err.Some? ==> err.value in {"Missing required fields", "selectedDays required", "startDate required"}
  {
    if !Truthy(b.studentName) || !Truthy(b.parentName) || !Truthy(b.email) || !Truthy(b.phone) then
      Some("Missing required fields")
    else if b.selectedDays.None? || |b.selectedDays.value| == 0 then Some("selectedDays required")
    else if !Truthy(b.startDate) then Some("startDate required")
    else None
  }

  /**
   * The response. `body` is `None` when the request has no body, so that the
   * destructuring throws; `createFails` says whether `student.create` throws.
   */
  function Respond(httpMethod: string, body: Option<RegisterBody>, clientPresent: bool, createFails: bool): (r: ApiResponse)
    ensures r.success <==> r.status == 200
    ensures r.status in {200, 400, 405, 500}
    ensures httpMethod != "POST" ==> r == ApiResponse(405, false, Some("Method Not Allowed"))
    ensures httpMethod == "POST" && body.None? ==> r == ApiResponse(500, false, Some("Internal Server Error"))
    ensures httpMethod == "POST" && body.Some? && ValidationError(body.value).Some? ==>
      r == ApiResponse(400, false, ValidationError(body.value))
    ensures httpMethod == "POST" && body.Some? && ValidationError(body.value).None? ==>
      r == if clientPresent && createFails then ApiResponse(500, false, Some("Internal Server Error"))
           else ApiResponse(200, true, None)
  {
    if httpMethod != "POST" then ApiResponse(405, false, Some("Method Not Allowed"))
    else if body.None? then ApiResponse(500, false, Some("Internal Server Error"))
    else
      var err := ValidationError(body.value);
      if err.Some? then ApiResponse(400, false, err)
      else if clientPresent && createFails then ApiResponse(500, false, Some("Internal Server Error"))
      else ApiResponse(200, true, None)
  }

  /** Whether the request ends in a new student row. */
  predicate Writes(httpMethod: string, body: Option<RegisterBody>, clientPresent: bool, createFails: bool)
  {
    httpMethod == "POST" && body.Some? && ValidationError(body.value).None? && clientPresent && !createFails
  }

  /** The row `student.create` stores: the request's fields, PENDING, and the waiver fields or null. */
  function Created(b: RegisterBody): (s: StudentRecord)
    requires ValidationError(b).None?
    ensures s.paymentStatus == Pending
    ensures Some(s.studentName) == b.studentName && Some(s.parentName) == b.parentName
    ensures Some(s.phone) == b.phone && Some(s.email) == b.email
    ensures Some(s.selectedDays) == b.selectedDays && Some(s.startDate) == b.startDate
    ensures s.age == b.age && s.liabilityAccepted == b.liabilityAccepted
    ensures s.location == b.location && s.frequency == b.frequency && s.paymentMethod == b.paymentMethod
    ensures s.waiverName == if b.waiverSignature.Some? then b.waiverSignature.value.name else None
    ensures s.waiverAddress == if b.waiverSignature.Some? then b.waiverSignature.value.address else None
  {
    StudentRecord(
      b.studentName.value, b.age, b.parentName.value, b.phone.value, b.email.value,
      b.location, b.frequency, b.selectedDays.value, b.startDate.value,
      Pending, b.paymentMethod, b.liabilityAccepted,
      if b.waiverSignature.None? then None else b.waiverSignature.value.name,
      if b.waiverSignature.None? then None else b.waiverSignature.value.address)
  }

  class StudentTable {
    var rows: seq<StudentRecord>

    constructor (initial: seq<StudentRecord>)
      ensures rows == initial
    {
      rows := initial;
    }

    /** The handler: answer the request and append at most one row. */
    method Register(httpMethod: string, body: Option<RegisterBody>, clientPresent: bool, createFails: bool)
      returns (r: ApiResponse)
      modifies this
      ensures r == Respond(httpMethod, body, clientPresent, createFails)
      ensures Writes(httpMethod, body, clientPresent, createFails) ==> rows == old(rows) + [Created(body.value)]
      ensures !Writes(httpMethod, body, clientPresent, createFails) ==> rows == old(rows)
    {
      if httpMethod != "POST" {
        return ApiResponse(405, false, Some("Method Not Allowed"));
      }
      if body.None? {
        return ApiResponse(500, false, Some("Internal Server Error"));
      }
      var b := body.value;
      if !Truthy(b.studentName) || !Truthy(b.parentName) || !Truthy(b.email) || !Truthy(b.phone) {
        return ApiResponse(400, false, Some("Missing required fields"));
      }
      if b.selectedDays.None? || |b.selectedDays.value| == 0 {
        return ApiResponse(400, false, Some("selectedDays required"));
      }
      if !Truthy(b.startDate) {
        return ApiResponse(400, false, Some("startDate required"));
      }
      if clientPresent {
        if createFails {
          return ApiResponse(500, false, Some("Internal Server Error"));
        }
        rows := rows + [Created(b)];
      }
      r := ApiResponse(200, true, None);
    }
  }

  /** Every answer other than 200 leaves the table alone, and a 200 writes only with a client. */
  lemma OnlySuccessWrites(httpMethod: string, body: Option<RegisterBody>, clientPresent: bool, createFails: bool)
    ensures Writes(httpMethod, body, clientPresent, createFails) <==>
      Respond(httpMethod, body, clientPresent, createFails).status == 200 && clientPresent
  {
  }

  /** A missing name, e-mail or phone is reported first, whatever else is missing. */
  lemma MissingFieldsReportedFirst(b: RegisterBody)
    requires !Truthy(b.studentName) || !Truthy(b.parentName) || !Truthy(b.email) || !Truthy(b.phone)
    ensures forall c, f :: Respond("POST", Some(b), c, f) == ApiResponse(400, false, Some("Missing required fields"))
  {
  }

  /** The days are checked before the start date. */
  lemma DaysCheckedBeforeStartDate(b: RegisterBody)
    requires Truthy(b.studentName) && Truthy(b.parentName) && Truthy(b.email) && Truthy(b.phone)
    ensures (b.selectedDays.None? || b.selectedDays.value == []) ==>
      ValidationError(b) == Some("selectedDays required")
    ensures b.selectedDays.Some? && b.selectedDays.value != [] && !Truthy(b.startDate) ==>
      ValidationError(b) == Some("startDate required")
  {
  }

  /**
   * The age, the liability flag, the location, the frequency, the payment
   * method, the waiver and the section ids play no part in the answer: they
   * are stored as given, unchecked.
   */
  lemma UncheckedFields(b: RegisterBody, age: Option<int>, accepted: Option<bool>, location: Option<string>,
                        frequency: Option<string>, payment: Option<string>, waiver: Option<WaiverSignature>,
                        ids: Option<seq<string>>, httpMethod: string, clientPresent: bool, createFails: bool)
    ensures var b2 := b.(age := age, liabilityAccepted := accepted, location := location, frequency := frequency,
                         paymentMethod := payment, waiverSignature := waiver, sectionIds := ids);
            Respond(httpMethod, Some(b2), clientPresent, createFails) == Respond(httpMethod, Some(b), clientPresent, createFails) &&
            (ValidationError(b).None? ==> Created(b2).age == age && Created(b2).liabilityAccepted == accepted)
  {
  }
}
