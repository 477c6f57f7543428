/** The client's course API wrapper: the argument guards that refuse a call
    before any request, the request each call sends, the filter clean-up,
    and the classification of a failed request into the error it throws. */
module KelasApi {
  import opened Js
  import KelasModel

  // ---------------------------------------------------------------- cleanFilters

  /** The reduce keeps an entry unless its value is '', null or undefined,
      or an empty array; 0 and false are kept. */
  predicate KeptValue(v: JsVal) {
    v != Str("") && v != Null && v != Undefined && !(v.Arr? && |v.items| == 0)
  }

  /** What `cleanFilters` is: the entries whose values are kept, unchanged. */
  function Cleaned(filters: Object): (r: Object)
    ensures r.Keys <= filters.Keys
    ensures forall k :: k in r ==> r[k] == filters[k] && KeptValue(r[k])
    ensures forall k :: k in filters && KeptValue(filters[k]) ==> k in r
  {
    map k | k in filters && KeptValue(filters[k]) :: filters[k]
  }

  /** Cleaning a cleaned object changes nothing. */
  lemma CleanedIdempotent(filters: Object)
    ensures Cleaned(Cleaned(filters)) == Cleaned(filters)
  {
  }

  /** The reduce over `Object.entries(filters)`, writing each kept entry into
      the accumulator; the result does not depend on the entry order. */
  method CleanFilters(filters: Object) returns (acc: Object)
    ensures acc == Cleaned(filters)
  {
    acc := map[];
    var remaining := filters.Keys;
    while remaining != {}
      invariant remaining <= filters.Keys
      invariant acc.Keys <= filters.Keys - remaining
      invariant forall k :: k in acc ==> acc[k] == filters[k] && KeptValue(filters[k])
      invariant forall k :: k in filters && k !in remaining && KeptValue(filters[k]) ==> k in acc
      decreases |remaining|
    {
      var key :| key in remaining;
      var value := filters[key];
      if value != Str("") && value != Null && value != Undefined {
        if value.Arr? && |value.items| > 0 {
          acc := acc[key := value];
        } else if !value.Arr? {
          acc := acc[key := value];
        }
      }
      remaining := remaining - {key};
    }
  }

  // ---------------------------------------------------------------- guards and requests

  datatype Verb = HttpGet | HttpPost | HttpPut | HttpDelete

  datatype Endpoint = KelasRoot | KelasItem(id: string) | CategoryItems(categoryId: string) | KelasSearch

  datatype Request = Request(verb: Verb, endpoint: Endpoint, params: Object, body: Option<Object>)

  /** A call either throws before any request or sends one. */
  datatype Call = Refused(message: string) | Sent(request: Request)

  function GetKelasById(id: string): (c: Call)
    ensures id == "" <==> c == Refused("Kelas ID is required")
    ensures id != "" ==> c == Sent(Request(HttpGet, KelasItem(id), map[], None))
  {
    if id == "" then Refused("Kelas ID is required") else Sent(Request(HttpGet, KelasItem(id), map[], None))
  }

  function GetKelasByCategory(categoryId: string): (c: Call)
    ensures categoryId == "" <==> c == Refused("Category ID is required")
    ensures categoryId != "" ==> c == Sent(Request(HttpGet, CategoryItems(categoryId), map[], None))
  {
    if categoryId == "" then Refused("Category ID is required")
    else Sent(Request(HttpGet, CategoryItems(categoryId), map[], None))
  }

  /** `searchKelas`: a blank term is refused; otherwise the trimmed term is
      sent with a limit of 50. */
  function SearchKelas(searchTerm: string): (c: Call)
    ensures c.Refused? <==> Trim(searchTerm) == ""
    ensures c.Refused? ==> c.message == "Search term is required"
    ensures c.Sent? ==> c.request.params == map["q" := Str(Trim(searchTerm)), "limit" := Num(50.0)]
    ensures c.Sent? ==> Get(c.request.params, "q").s != "" && Trim(Get(c.request.params, "q").s) == Get(c.request.params, "q").s
  {
    if searchTerm == "" || Trim(searchTerm) == "" then Refused("Search term is required")
    else
      TrimIdempotent(searchTerm);
      Sent(Request(HttpGet, KelasSearch, map["q" := Str(Trim(searchTerm)), "limit" := Num(50.0)], None))
  }

  /** `getKelasWithFilters`: the cleaned filters become the query parameters. */
  method GetKelasWithFilters(filters: Object) returns (c: Call)
    ensures c == Sent(Request(HttpGet, KelasRoot, Cleaned(filters), None))
  {
    var cleanFilters := CleanFilters(filters);
    c := Sent(Request(HttpGet, KelasRoot, cleanFilters, None));
  }

  /** `createKelas`; None is a null or undefined `kelasData`. */
  function CreateKelas(kelasData: Option<Object>): (c: Call)
    ensures kelasData.None? <==> c == Refused("Kelas data is required")
    ensures kelasData.Some? ==> c == Sent(Request(HttpPost, KelasRoot, map[], kelasData))
  {
    if kelasData.None? then Refused("Kelas data is required") else Sent(Request(HttpPost, KelasRoot, map[], kelasData))
  }

  /** `updateKelas`: the id is checked before the data. */
  function UpdateKelas(id: string, kelasData: Option<Object>): (c: Call)
    ensures id == "" ==> c == Refused("Kelas ID is required")
    ensures id != "" && kelasData.None? ==> c == Refused("Kelas data is required")
    ensures c.Sent? <==> id != "" && kelasData.Some?
    ensures c.Sent? ==> c.request == Request(HttpPut, KelasItem(id), map[], kelasData)
  {
    if id == "" then Refused("Kelas ID is required")
    else if kelasData.None? then Refused("Kelas data is required")
    else Sent(Request(HttpPut, KelasItem(id), map[], kelasData))
  }

  function DeleteKelas(id: string): (c: Call)
    ensures id == "" <==> c == Refused("Kelas ID is required")
    ensures id != "" ==> c == Sent(Request(HttpDelete, KelasItem(id), map[], None))
  {
    if id == "" then Refused("Kelas ID is required") else Sent(Request(HttpDelete, KelasItem(id), map[], None))
  }

  // ---------------------------------------------------------------- error classification

  /** The call whose request failed. */
  datatype Operation =
    | FetchAll | FetchById(id: string) | FetchByCategory(categoryId: string) | Search(term: string)
    | FetchWithFilters | Create | Update(id: string) | Remove(id: string)

  /** A failed request: the response status if a response came, axios's
      error code, and the error's message. */
  datatype Failure = Failure(status: Option<int>, code: string, message: string)

  /** What the catch block throws: a new error with a message, or the original error. */
  datatype Thrown = NewError(message: string) | Original

  const NetworkMessage := "Network error - please check your connection and backend server"

  /** The messages for the specific statuses each call checks first. */
  function StatusMessage(op: Operation, status: int): (r: Option<string>)
    ensures r.Some? ==> status == 400 || status == 404 || status == 422
    ensures status == 404 && !op.FetchWithFilters? && !op.Create? ==> r.Some?
  {
    match op
    case FetchAll => if status == 404 then Some("Kelas endpoint not found - check backend routing") else None
    case FetchById(id) => if status == 404 then Some("Kelas with ID " + id + " not found") else None
    case FetchByCategory(c) => if status == 404 then Some("No kelas found for category " + c) else None
    case Search(t) => if status == 404 then Some("No kelas found for search term: " + t) else None
    case FetchWithFilters => if status == 400 then Some("Invalid filter parameters") else None
    case Create =>
      if status == 400 then Some("Invalid kelas data - please check your input")
      else if status == 422 then Some("Validation error - please check required fields")
      else None
    case Update(id) =>
      if status == 404 then Some("Kelas with ID " + id + " not found")
      else if status == 400 then Some("Invalid kelas data - please check your input")
      else if status == 422 then Some("Validation error - please check required fields")
      else None
    case Remove(id) => if status == 404 then Some("Kelas with ID " + id + " not found") else None
  }

  function ServerMessage(op: Operation): string {
    match op
    case FetchAll => "Server error when fetching kelas"
    case FetchById(_) => "Server error when fetching kelas details"
    case FetchByCategory(_) => "Server error when fetching kelas by category"
    case Search(_) => "Server error when searching kelas"
    case FetchWithFilters => "Server error when fetching filtered kelas"
    case Create => "Server error when creating kelas"
    case Update(_) => "Server error when updating kelas"
    case Remove(_) => "Server error when deleting kelas"
  }

  /** The listing's own network checks: two codes with their own messages,
      then the 'Network Error' message text. */
  function FetchAllNetwork(e: Failure): Thrown {
    if e.code == "ERR_NETWORK" then NewError("Network error - backend server might not be running on http://localhost:3001")
    else if e.code == "ECONNABORTED" then NewError("Request timeout - backend server took too long to respond")
    else if Contains(e.message, "Network Error") then
      NewError("Cannot connect to backend server - please check if it's running on port 3001")
    else Original
  }

  predicate ServerStatus(e: Failure) {
    e.status.Some? && e.status.value >= 500
  }

  /** The catch block: specific statuses first, then any status of 500 or
      more, then the network codes; anything else is rethrown as it is. */
  function Classify(op: Operation, e: Failure): (r: Thrown)
    ensures e.status.Some? && StatusMessage(op, e.status.value).Some? ==>
      r == NewError(StatusMessage(op, e.status.value).value)
    ensures ServerStatus(e) ==> r == NewError(ServerMessage(op))
    ensures !op.FetchAll? && !ServerStatus(e) && (e.status.None? || StatusMessage(op, e.status.value).None?) ==>
      (r == NewError(NetworkMessage) <==> e.code == "ERR_NETWORK" || e.code == "ECONNABORTED")
    ensures !op.FetchAll? ==>
      (r == Original <==>
         !ServerStatus(e) && (e.status.None? || StatusMessage(op, e.status.value).None?)
         && e.code != "ERR_NETWORK" && e.code != "ECONNABORTED")
    ensures op.FetchAll? && !ServerStatus(e) && e.status != Some(404) ==> r == FetchAllNetwork(e)
  {
    if e.status.Some? && StatusMessage(op, e.status.value).Some? then NewError(StatusMessage(op, e.status.value).value)
    else if ServerStatus(e) then NewError(ServerMessage(op))
    else if op.FetchAll? then FetchAllNetwork(e)
    else if e.code == "ERR_NETWORK" || e.code == "ECONNABORTED" then NewError(NetworkMessage)
    else Original
  }

  /** The specific statuses are all below 500, so checking them first never
      hides a server error. */
  lemma StatusMessagesBelowServerRange(op: Operation, status: int)
    requires StatusMessage(op, status).Some?
    ensures status < 500
  {
  }

  /** A 404 from the single-course endpoints reports the text the course
      model throws internally for an unknown id; the controller answers such
      a 404 with its own 'Kelas tidak ditemukan', so this text is the
      client's, not the response's. */
  lemma ClientNotFoundIsServerMessage(id: string)
    ensures StatusMessage(FetchById(id), 404) == Some(KelasModel.Message(KelasModel.NotFound(id)))
    ensures StatusMessage(Update(id), 404) == StatusMessage(FetchById(id), 404)
    ensures StatusMessage(Remove(id), 404) == StatusMessage(FetchById(id), 404)
  {
    assert "Kelas with ID " + id + " " + "not found" == "Kelas with ID " + id + " not found";
  }
}
