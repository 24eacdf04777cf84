/**
 * POST /api/waitList (src/pages/api/waitList.ts): one required-field check,
 * then one `waitingList.create`. Whether the create throws is an input.
 * As in the register handler, `None` is an absent field or `null`.
 */
module WaitListApi {
  import opened Domain
  import RegisterApi

  datatype WaitListBody = WaitListBody(
    studentName: Option<string>,
    age: Option<int>,
    parentName: Option<string>,
    phone: Option<string>,
    email: Option<string>,
    location: Option<string>,
    requestedDay: Option<string>,
    notes: Option<string>)

  /** A `waitingList` row: the eight fields of the body, as given. */
  datatype WaitListRow = WaitListRow(
    studentName: string,
    age: Option<int>,
    parentName: string,
    phone: string,
    email: string,
    location: string,
    requestedDay: string,
    notes: Option<string>)

  /** The "very light validation": six fields must be truthy; age and notes are optional. */
  predicate HasRequiredFields(b: WaitListBody)
  {
    RegisterApi.Truthy(b.studentName) && RegisterApi.Truthy(b.parentName) && RegisterApi.Truthy(b.phone) && RegisterApi.Truthy(b.email) &&
    RegisterApi.Truthy(b.location) && RegisterApi.Truthy(b.requestedDay)
  }

  function Respond(httpMethod: string, body: Option<WaitListBody>, createFails: bool): (r: RegisterApi.ApiResponse)
    ensures r.success <==> r.status == 200
    ensures httpMethod != "POST" ==> r == RegisterApi.ApiResponse(405, false, Some("Method Not Allowed"))
    ensures httpMethod == "POST" && body.Some? && !HasRequiredFields(body.value) ==>
      r == RegisterApi.ApiResponse(400, false, Some("Missing fields"))
    ensures r.status == 200 <==> httpMethod == "POST" && body.Some? && HasRequiredFields(body.value) && !createFails
    ensures httpMethod == "POST" && (body.None? || (HasRequiredFields(body.value) && createFails)) ==>
      r == RegisterApi.ApiResponse(500, false, Some("Server error"))
    ensures r.status == 200 ==> r == RegisterApi.ApiResponse(200, true, None)
  {
    if httpMethod != "POST" then RegisterApi.ApiResponse(405, false, Some("Method Not Allowed"))
    else if body.None? then RegisterApi.ApiResponse(500, false, Some("Server error"))
    else if !HasRequiredFields(body.value) then RegisterApi.ApiResponse(400, false, Some("Missing fields"))
    else if createFails then RegisterApi.ApiResponse(500, false, Some("Server error"))
    else RegisterApi.ApiResponse(200, true, None)
  }

  function Row(b: WaitListBody): (row: WaitListRow)
    requires HasRequiredFields(b)
    ensures Some(row.studentName) == b.studentName && Some(row.parentName) == b.parentName
    ensures Some(row.phone) == b.phone && Some(row.email) == b.email
    ensures Some(row.location) == b.location && Some(row.requestedDay) == b.requestedDay
    ensures row.age == b.age && row.notes == b.notes
  {
    WaitListRow(b.studentName.value, b.age, b.parentName.value, b.phone.value, b.email.value,
                b.location.value, b.requestedDay.value, b.notes)
  }

  class WaitListTable {
    var rows: seq<WaitListRow>

    constructor (initial: seq<WaitListRow>)
      ensures rows == initial
    {
      rows := initial;
    }

    /** The handler: a success appends exactly one row; every other answer appends none. */
    method Join(httpMethod: string, body: Option<WaitListBody>, createFails: bool) returns (r: RegisterApi.ApiResponse)
      modifies this
      ensures r == Respond(httpMethod, body, createFails)
      ensures r.status == 200 ==> rows == old(rows) + [Row(body.value)]
      ensures r.status != 200 ==> rows == old(rows)
    {
      if httpMethod != "POST" {
        return RegisterApi.ApiResponse(405, false, Some("Method Not Allowed"));
      }
      if body.None? {
        return RegisterApi.ApiResponse(500, false, Some("Server error"));
      }
      var b := body.value;
      if !RegisterApi.Truthy(b.studentName) || !RegisterApi.Truthy(b.parentName) || !RegisterApi.Truthy(b.phone) || !RegisterApi.Truthy(b.email) ||
         !RegisterApi.Truthy(b.location) || !RegisterApi.Truthy(b.requestedDay) {
        return RegisterApi.ApiResponse(400, false, Some("Missing fields"));
      }
      if createFails {
        return RegisterApi.ApiResponse(500, false, Some("Server error"));
      }
      rows := rows + [Row(b)];
      r := RegisterApi.ApiResponse(200, true, None);
    }
  }

  /** Neither the age nor the notes decide whether a request is accepted. */
  lemma AgeAndNotesOptional(b: WaitListBody, age: Option<int>, notes: Option<string>, httpMethod: string, createFails: bool)
    ensures Respond(httpMethod, Some(b.(age := age, notes := notes)), createFails) == Respond(httpMethod, Some(b), createFails)
  {
  }

  /** An empty string is as missing as an absent field. */
  lemma EmptyCountsAsMissing(b: WaitListBody, createFails: bool)
    requires b.requestedDay == Some("")
    ensures Respond("POST", Some(b), createFails) == RegisterApi.ApiResponse(400, false, Some("Missing fields"))
  {
  }
}
