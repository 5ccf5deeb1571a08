/**
 The collaborators the service calls but whose code is not modelled: the parsed JSON
 tree, the HTTP client's answer, and the numeric library routines.
 */
module Foreign {
  import opened Wrappers

  /** A parsed JSON value. */
  datatype JsonValue =
    | JNull
    | JBool(b: bool)
    | JNumber(n: real)
    | JText(text: string)
    | JArray(items: seq<JsonValue>)
    | JObject(members: map<string, JsonValue>)

  /**
   Jackson's `JsonNode.get(fieldName)`: the member's value when the node is an object
   that has the member (an explicit JSON `null` is a present value), nothing otherwise.
   */
  function Get(node: JsonValue, name: string): Option<JsonValue>
  {
    if node.JObject? && name in node.members then Some(node.members[name]) else None
  }

  /** The exceptions that can escape the computation. */
  datatype Exception =
    | RestClientError      // the HTTP exchange itself failed
    | JsonProcessingError  // the body of an OK response is not JSON
    | NullPointer          // a member read from a record was absent
    | MathError            // the correlation routine rejected its arrays

  /**
   The answer to one GET request: its status code and the children of the parsed
   body's root in iteration order (`None` when the body does not parse).
   */
  datatype Response = Response(status: int, body: Option<seq<JsonValue>>)

  /** The remote statistics API: the outcome of a GET on each URL. */
  type Server = string -> Result<Response, Exception>

  /**
   Library routines kept uninterpreted: Jackson's `asText` and `asDouble` coercions,
   IEEE double division, and Commons Math's `PearsonsCorrelation.correlation`, which
   may throw.
   */
  datatype Library = Library(
    asText: JsonValue -> string,
    asDouble: JsonValue -> real,
    divide: (real, real) -> real,
    correlation: (seq<real>, seq<real>) -> Result<real, Exception>)
}
