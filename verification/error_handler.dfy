/**
 * The HTTP error layer: handleSPError turns a thrown error into a status and a
 * JSON body, handleSPResponse rewrites procedure replies handed to res.send
 * into the API's envelope, and customRateLimit keeps, per client address, the
 * times of its recent requests and refuses one once the window is full.
 */
module ErrorHandler {
  import opened Common
  import opened Schema
  import Text
  import Seqs

  // ---------------------------------------------------------- handleSPError

  /** What handleSPError reads of an error: its message and its `code`, if any. */
  datatype Thrown = Thrown(message: string, code: Option<string>)

  /** `res.status(status).json({success: false, error, code})` */
  datatype ErrorReply = ErrorReply(status: int, error: string, code: string)

  const MsgConflict := "Conflicto en la base de datos"
  const MsgUnavailable := "Servicio de base de datos no disponible"
  const MsgInternal := "Error interno del servidor"

  /** The codes of a failed connection to the database server. */
  predicate IsConnectionCode(code: Option<string>) {
    code == Some("ECONNREFUSED") || code == Some("ENOTFOUND")
  }

  /** An integrity-constraint violation: SQLSTATE class 23. */
  predicate IsIntegrityCode(code: Option<string>) {
    code.Some? && Text.StartsWith(code.value, "23")
  }

  /** handleSPError: the first of its four rules that matches decides the reply. */
  function HandleSPError(e: Thrown, production: bool): (r: ErrorReply)
    ensures r.status == 400 <==> Text.Contains(e.message, "Error:")
    ensures r.status == 409 <==> !Text.Contains(e.message, "Error:") && IsIntegrityCode(e.code)
    ensures r.status == 503 <==>
              !Text.Contains(e.message, "Error:") && !IsIntegrityCode(e.code) && IsConnectionCode(e.code)
    ensures r.status in {400, 409, 503, 500}
    ensures r.status == 400 ==> r.error == e.message && r.code == "VALIDATION_ERROR"
    ensures r.status == 409 ==> r.error == MsgConflict && r.code == "DATABASE_CONFLICT"
    ensures r.status == 503 ==> r.error == MsgUnavailable && r.code == "DATABASE_UNAVAILABLE"
    ensures r.status == 500 ==> r.code == "INTERNAL_ERROR" && r.error == (if production then MsgInternal else e.message)
  {
    if Text.Contains(e.message, "Error:") then ErrorReply(400, e.message, "VALIDATION_ERROR")
    else if IsIntegrityCode(e.code) then ErrorReply(409, MsgConflict, "DATABASE_CONFLICT")
    else if IsConnectionCode(e.code) then ErrorReply(503, MsgUnavailable, "DATABASE_UNAVAILABLE")
    else ErrorReply(500, if production then MsgInternal else e.message, "INTERNAL_ERROR")
  }

  /** A message that starts with a text contains it. */
  lemma StartsWithContains(s: string, p: string)
    requires Text.StartsWith(s, p)
    ensures Text.Contains(s, p)
  {
    assert Text.OccursAt(s, p, 0);
  }

  /** In production a reply carries the error's own message only when the message is a raised one (400). */
  lemma ProductionHidesMessage(e: Thrown)
    ensures HandleSPError(e, true).status != 400 ==>
              HandleSPError(e, true).error in {MsgConflict, MsgUnavailable, MsgInternal}
  {
  }

  /** The rules are tried in order: a raised message wins over the code the error carries. */
  lemma RaisedMessageWins(message: string, code: Option<string>, production: bool)
    requires Text.StartsWith(message, "Error:")
    ensures HandleSPError(Thrown(message, code), production) == ErrorReply(400, message, "VALIDATION_ERROR")
  {
    StartsWithContains(message, "Error:");
  }

  // ------------------------------------------------------ service unwrapping

  /** The services' rule: `sql_err !== '0'` throws `new Error(sql_msn)`, otherwise the data is returned. */
  function Unwrap<T>(reply: SpReply<T>): (r: Result<T>)
    ensures r.Ok? <==> reply.SpOk?
    ensures r.Ok? ==> r.value == reply.data
    ensures r.Err? ==> r.error == reply.message
  {
    match reply
    case SpOk(_, data) => Ok(data)
    case SpError(_, message) => Err(message)
  }

  /**
   * A procedure's RAISE EXCEPTION, thrown by its service, reaches the client as
   * a 400 VALIDATION_ERROR carrying the procedure's own message.
   */
  lemma RaisedProcedureErrorIs400<T>(reply: SpReply<T>, production: bool)
    requires reply.SpError? && Text.StartsWith(reply.message, "Error:")
    ensures Unwrap(reply).Err?
    ensures HandleSPError(Thrown(Unwrap(reply).error, None), production)
              == ErrorReply(400, reply.message, "VALIDATION_ERROR")
  {
    RaisedMessageWins(reply.message, None, production);
  }

  // ------------------------------------------------------- handleSPResponse

  /** A value handed to res.send, as JSON. */
  datatype Json =
    | JNull
    | JStr(s: string)
    | JNum(n: int)
    | JBool(b: bool)
    | JArr(items: seq<Json>)
    | JObj(fields: map<string, Json>)

  /** `{to: obj[from]}` when obj has `from`; an undefined property is left out of the JSON. */
  function Pick(fields: map<string, Json>, from: string, to: string): (r: map<string, Json>)
    ensures to in r <==> from in fields
    ensures to in r ==> r[to] == fields[from]
    ensures r.Keys <= {to}
  {
    if from in fields then map[to := fields[from]] else map[]
  }

  /** `{success: true, message: sql_msn, data}` */
  function SuccessEnvelope(fields: map<string, Json>): Json {
    JObj(map["success" := JBool(true)] + Pick(fields, "sql_msn", "message") + Pick(fields, "data", "data"))
  }

  /** `{success: false, error: sql_msn, code: 'SP_ERROR', sql_error: sql_err}` */
  function ErrorEnvelope(fields: map<string, Json>): Json
    requires "sql_err" in fields
  {
    JObj(map["success" := JBool(false), "code" := JStr("SP_ERROR"), "sql_error" := fields["sql_err"]]
         + Pick(fields, "sql_msn", "error"))
  }

  /** The body sent when reading the reply threw (`data` is null). */
  const ResponseErrorBody :=
    JObj(map["success" := JBool(false), "error" := JStr("Error procesando respuesta"), "code" := JStr("RESPONSE_ERROR")])

  /**
   * The replacement res.send: an object with `sql_err` is a procedure reply
   * and is rewritten (success only for the string "0"); null makes the
   * property read throw; anything else is sent unchanged.
   */
  function HandleSPResponse(data: Json): (r: Json)
    ensures data.JNull? ==> r == ResponseErrorBody
    ensures !data.JNull? && !(data.JObj? && "sql_err" in data.fields) ==> r == data
    ensures data.JObj? && "sql_err" in data.fields ==>
              r.JObj? && "success" in r.fields
              && (r.fields["success"] == JBool(true) <==> data.fields["sql_err"] == JStr("0"))
    ensures data.JObj? && "sql_err" in data.fields && data.fields["sql_err"] != JStr("0") ==>
              && r.JObj? && "code" in r.fields && "sql_error" in r.fields
              && r.fields["code"] == JStr("SP_ERROR") && r.fields["sql_error"] == data.fields["sql_err"]
  {
    match data
    case JNull => ResponseErrorBody
    case JObj(fields) =>
      if "sql_err" in fields then
        if fields["sql_err"] == JStr("0") then SuccessEnvelope(fields) else ErrorEnvelope(fields)
      else data
    case _ => data
  }

  /** A procedure's reply as JSON: `{sql_err, sql_msn, data}`, without data on an error. */
  function ReplyJson(reply: SpReply<Json>): Json {
    match reply
    case SpOk(message, data) => JObj(map["sql_err" := JStr("0"), "sql_msn" := JStr(message), "data" := data])
    case SpError(state, message) => JObj(map["sql_err" := JStr(state), "sql_msn" := JStr(message)])
  }

  /**
   * Every procedure reply becomes the success envelope with its message and
   * data exactly when the procedure succeeded, and otherwise the SP_ERROR
   * envelope with its SQLSTATE and message.
   */
  lemma ReplyEnvelope(reply: SpReply<Json>)
    requires reply.SpError? ==> reply.sqlState != "0"
    ensures reply.SpOk? ==>
              HandleSPResponse(ReplyJson(reply))
                == JObj(map["success" := JBool(true), "message" := JStr(reply.message), "data" := reply.data])
    ensures reply.SpError? ==>
              HandleSPResponse(ReplyJson(reply))
                == JObj(map["success" := JBool(false), "code" := JStr("SP_ERROR"), "sql_error" := JStr(reply.sqlState),
                            "error" := JStr(reply.message)])
  {
    var fields := ReplyJson(reply).fields;
    if reply.SpOk? {
      assert Pick(fields, "sql_msn", "message") == map["message" := JStr(reply.message)];
      assert Pick(fields, "data", "data") == map["data" := reply.data];
    } else {
      assert JStr(reply.sqlState) != JStr("0");
      assert Pick(fields, "sql_msn", "error") == map["error" := JStr(reply.message)];
    }
  }

  /** Only the string "0" means success: a numeric 0 in sql_err is reported as an SP_ERROR. */
  lemma NumericZeroIsError(message: string)
    ensures HandleSPResponse(JObj(map["sql_err" := JNum(0), "sql_msn" := JStr(message)]))
              == JObj(map["success" := JBool(false), "code" := JStr("SP_ERROR"), "sql_error" := JNum(0),
                          "error" := JStr(message)])
  {
    var fields := map["sql_err" := JNum(0), "sql_msn" := JStr(message)];
    assert Pick(fields, "sql_msn", "error") == map["error" := JStr(message)];
  }

  // -------------------------------------------------------- customRateLimit

  /** `Math.ceil(w / 1000)` for a whole number of milliseconds. */
  function CeilSeconds(w: int): (r: int)
    ensures r * 1000 >= w && (r - 1) * 1000 < w
  {
    -((-w) / 1000)
  }

  /** The refusal customRateLimit sends, or the call of next. */
  datatype Decision =
    | Next
    | Limited(status: int, error: string, code: string, retryAfter: int)

  /** The times strictly inside the window that ends at `now`. */
  function After(windowStart: int): int -> bool {
    t => t > windowStart
  }

  /** A key's list after the clean-up: only the times after `now - windowMs`, in order; none for a new key. */
  function Recent(requests: map<string, seq<int>>, key: string, now: int, windowMs: int): (r: seq<int>)
    ensures key !in requests ==> r == []
    ensures forall t :: t in r ==> t > now - windowMs
    ensures key in requests ==> forall t :: t in requests[key] && t > now - windowMs ==> t in r
    ensures key in requests ==> |r| <= |requests[key]|
  {
    if key in requests then Seqs.Filter(requests[key], After(now - windowMs)) else []
  }

  /** A limiter made by `customRateLimit(windowMs, max)`: its own map of request times per key. */
  class RateLimiter {
    const windowMs: int
    const max: int
    var requests: map<string, seq<int>>

    /** No key ever holds more times than the limit (none at all when the limit is not positive). */
    predicate Valid()
      reads this
    {
      forall k :: k in requests ==> |requests[k]| <= (if max < 0 then 0 else max)
    }

    /** customRateLimit(windowMs = 15 minutes, max = 100) */
    constructor(windowMs: int := 15 * 60 * 1000, max: int := 100)
      ensures this.windowMs == windowMs && this.max == max
      ensures requests == map[]
      ensures Valid()
    {
      this.windowMs := windowMs;
      this.max := max;
      requests := map[];
    }

    /**
     * One request from `key` at `now`: the key's list is cut to the window;
     * a full window refuses the request without recording it, otherwise the
     * time is recorded and the request goes on.
     */
    method Handle(key: string, now: int) returns (d: Decision)
      requires Valid()
      modifies this
      ensures Valid()
      ensures d.Limited? <==> |Recent(old(requests), key, now, windowMs)| >= max
      ensures d.Limited? ==>
                d == Limited(429, "Demasiadas solicitudes", "RATE_LIMIT_EXCEEDED", CeilSeconds(windowMs))
                && requests == old(requests)[key := Recent(old(requests), key, now, windowMs)]
      ensures d.Next? ==> requests == old(requests)[key := Recent(old(requests), key, now, windowMs) + [now]]
    {
      var windowStart := now - windowMs;
      if key in requests {
        var userRequests := Seqs.Filter(requests[key], After(windowStart));
        requests := requests[key := userRequests];
      } else {
        requests := requests[key := []];
      }
      var userRequests := requests[key];
      if |userRequests| >= max {
        return Limited(429, "Demasiadas solicitudes", "RATE_LIMIT_EXCEEDED", CeilSeconds(windowMs));
      }
      requests := requests[key := userRequests + [now]];
      d := Next;
    }
  }
}
