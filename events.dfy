/**
  The shapes shared by both request handlers: optional values, the JSON
  values a request body can carry, the parsed body itself, and the outcome of
  one handler invocation (a response, or an exception that escapes it).
 */
module Events {

  datatype Option<+T> = None | Some(value: T)

  /** A JSON value as far as the request schemas distinguish it. */
  datatype Json = JStr(s: string) | JInt(n: int) | JNull | JOther

  /** The request body after `json.loads`: a JSON object, or anything else
      (text that does not parse, or a JSON value that is not an object). */
  datatype Body = Object(fields: map<string, Json>) | Malformed

  /** The parts of the invocation event the handlers read: `httpMethod`,
      `headers`, `queryStringParameters` and the decoded `body`. */
  datatype Event = Event(httpMethod: string, headers: map<string, string>,
                         params: map<string, string>, body: Body)

  /** Exceptions the handlers do not catch. */
  datatype Fault =
    | ValidationError   // a pydantic schema rejected the body
    | BadJson           // the body is not a JSON object

  /** What one invocation of a handler produces. */
  datatype Outcome<+B> = Reply(status: nat, body: B) | Raised(fault: Fault)

  /** `body_data.get(key)`. */
  function Field(fields: map<string, Json>, key: string): (r: Option<Json>)
    ensures r.Some? <==> key in fields
    ensures r.Some? ==> r.value == fields[key]
  {
    if key in fields then Some(fields[key]) else None
  }

  /** A string field whose length lies in `min..max` (`Field(..., min_length,
      max_length)` of a request schema; no `max` is no upper bound). */
  predicate StringField(fields: map<string, Json>, key: string, min: nat, max: Option<nat>) {
    && key in fields && fields[key].JStr? && |fields[key].s| >= min
    && (max.Some? ==> |fields[key].s| <= max.value)
  }

  /** The `action` value of a body, when it is a JSON string. */
  function ActionOf(fields: map<string, Json>): (r: Option<string>)
    ensures r.Some? <==> "action" in fields && fields["action"].JStr?
    ensures r.Some? ==> fields["action"] == JStr(r.value)
  {
    match Field(fields, "action")
    case Some(JStr(a)) => Some(a)
    case _ => None
  }
}
