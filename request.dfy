/** What the endpoints receive and give back: a request with an optional JSON
    body reader and user, and the store after the call with the response. */
module Request {
  import opened Common
  import opened Access
  import opened ApiResponse
  import opened Store
  import opened Strings

  /** A Payload request as the JSON endpoints read it. `jsonMethod` is whether
      `req.json` exists; `body` is what `await req.json()` yields, `None` when
      reading it throws (a malformed body). */
  datatype JsonRequest = JsonRequest(jsonMethod: bool, user: UserField, body: Option<Json>)

  /** A handler call: the store after it, and the response. */
  datatype Outcome = Outcome(state: State, response: Response)

  /** The document id a JSON id names on a numeric-id database: a
      non-negative number, or a string of decimal digits, which the database
      reads as that number. Any other value names no document. */
  function JsonIdValue(v: Json): Option<nat>
  {
    if v.Num? && v.n >= 0 then Some(v.n)
    else if v.Str? && v.s != "" && AllDigits(v.s) then Some(DigitsValue(v.s))
    else None
  }

  /** A number and its decimal string name the same document. */
  lemma JsonIdOfDecimalString(n: nat)
    ensures JsonIdValue(Str(NatToString(n))) == JsonIdValue(Num(n)) == Some(n)
  {
  }

  /** `findByID` with an id taken from a request body: the document whose id
      the value names; a value naming no id, or a missing document, is not
      found (the lookup throws and the endpoints answer as for a miss). */
  function FindByJsonId(ids: seq<nat>, v: Json): (r: Option<nat>)
    ensures r.Some? <==> JsonIdValue(v).Some? && JsonIdValue(v).value in ids
    ensures r.Some? ==> r.value < |ids| && ids[r.value] == JsonIdValue(v).value
  {
    match JsonIdValue(v)
    case None => None
    case Some(id) => FindId(ids, id)
  }

  /** `{ message }`, the data of the endpoints' success responses. */
  function MessageData(message: string): Json
  {
    Obj(map["message" := Str(message)])
  }
}
