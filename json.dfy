/** Request and response bodies as the HTTP handlers see them once cJSON has
    parsed them: a document is an object of members or some other JSON
    value, and a member is a string, a boolean, null, or anything else. */
module Json {

  datatype Option<+T> = None | Some(value: T)

  datatype JsonValue = JString(s: string) | JBool(b: bool) | JNull | JOther

  datatype Json = JObject(members: map<string, JsonValue>) | JNonObject

  /** A received request body: nothing (no bytes, or the receive failed),
      bytes cJSON cannot parse, or a parsed document. */
  datatype Body = NoData | Unparsable | Parsed(doc: Json)

  /** `cJSON_GetObjectItem(doc, key)`: a member of an object; a document that
      is not an object has no members. */
  function Member(doc: Json, key: string): (v: Option<JsonValue>)
    ensures v.Some? <==> doc.JObject? && key in doc.members
  {
    match doc
    case JObject(members) => if key in members then Some(members[key]) else None
    case JNonObject => None
  }

  /** An HTTP response: a 400 with its message, or a 200 with a JSON body. */
  datatype Response = BadRequest(message: string) | Ok(body: Json)

  /** The outcome of validating a request against the current value of the
      section it writes. */
  datatype Merge<+T> = Reject(message: string) | Accept(value: T)

  /** The `{"status": message}` body of a successful write. */
  function StatusBody(message: string): Json
  {
    JObject(map["status" := JString(message)])
  }
}
