/** The shared error classifier of the workout service: it turns whatever a
    failed call threw into the HTTP exception the caller sees. It never
    returns normally, so here it is a function whose result is the exception
    it throws. */
module ErrorHandler {
  import opened Common

  datatype Operation = Create | Update | Delete | Find | Toggle | Start

  function OperationName(op: Operation): string {
    match op
    case Create => "create"
    case Update => "update"
    case Delete => "delete"
    case Find => "find"
    case Toggle => "toggle"
    case Start => "start"
  }

  /** " with ID <id>" when the identifier is truthy, nothing otherwise. */
  function IdSuffix(entityId: Option<string>): string {
    if Truthy(entityId) then " with ID " + entityId.value else ""
  }

  /** `s.toUpperCase()` on one character, for the ASCII letters. */
  function UpperCase(c: char): (u: char)
    ensures 'a' <= c <= 'z' ==> 'A' <= u <= 'Z' && u as int == c as int - 32
    ensures !('a' <= c <= 'z') ==> u == c
  {
    if 'a' <= c <= 'z' then (c as int - 32) as char else c
  }

  /** `s.charAt(0).toUpperCase() + s.slice(1)`. */
  function Capitalized(s: string): (r: string)
    ensures |r| == |s|
    ensures |s| > 0 ==> r[0] == UpperCase(s[0]) && r[1..] == s[1..]
  {
    if s == [] then [] else [UpperCase(s[0])] + s[1..]
  }

  /** The message used when the caller gave no message of its own. */
  function DefaultMessage(op: Operation, entityType: string, entityId: Option<string>): string {
    "Failed to " + OperationName(op) + " " + entityType + IdSuffix(entityId) + "."
  }

  /** The exceptions that are rethrown as they are. */
  predicate PassesThrough(e: Exception) {
    e.BadRequest? || e.NotFound? || e.InternalServerError?
  }

  /** Classification of a known database error by its code. */
  function HandlePrismaError(code: string, op: Operation, entityType: string, entityId: Option<string>): (thrown: Exception)
    ensures thrown.BadRequest? <==> code == "P2002" || code == "P2003" || code == "P2028"
    ensures thrown.NotFound? <==> code == "P2025"
    ensures thrown.InternalServerError? <==> !(code == "P2002" || code == "P2003" || code == "P2028" || code == "P2025")
    ensures code == "P2025" && |entityType| > 0 ==>
              |thrown.message| > 0 && thrown.message[0] == UpperCase(entityType[0])
  {
    var entityRef := entityType + IdSuffix(entityId);
    if code == "P2002" then
      BadRequest("A " + entityType + " with the provided unique field(s) already exists.")
    else if code == "P2003" then
      BadRequest("Invalid refrences for " + entityRef)
    else if code == "P2028" then
      BadRequest("Operation time out")
    else if code == "P2025" then
      NotFound(Capitalized(entityType) + IdSuffix(entityId) + " not found.")
    else
      InternalServerError("Database error during " + OperationName(op) + " " + entityRef + ".")
  }

  /** `handleError`: every path throws, and only ever one of the three
      pass-through exceptions. */
  function HandleError(error: Failure, op: Operation, entityType: string, entityId: Option<string>,
                       customerMessage: Option<string>): (thrown: Exception)
    ensures PassesThrough(thrown)
    ensures error.PrismaKnown? ==> thrown == HandlePrismaError(error.code, op, entityType, entityId)
    ensures error.Raised? && PassesThrough(error.ex) ==> thrown == error.ex
    ensures !error.PrismaKnown? && !(error.Raised? && PassesThrough(error.ex)) ==>
              && (thrown.NotFound? <==> op == Find)
              && (thrown.InternalServerError? <==> op != Find)
              && thrown.Message() == (if Truthy(customerMessage) then customerMessage.value
                                      else DefaultMessage(op, entityType, entityId))
  {
    if error.PrismaKnown? then
      HandlePrismaError(error.code, op, entityType, entityId)
    else if error.Raised? && PassesThrough(error.ex) then
      error.ex
    else
      var message := if Truthy(customerMessage) then customerMessage.value
                     else DefaultMessage(op, entityType, entityId);
      if op == Find then NotFound(message) else InternalServerError(message)
  }

  /** Handling an exception that was itself produced by the handler rethrows
      it unchanged, whatever the second call's operation and entity: nested
      services can run their errors through the handler twice. */
  lemma HandleErrorIsStable(error: Failure, op: Operation, entityType: string, entityId: Option<string>,
                            customerMessage: Option<string>, op2: Operation, entityType2: string,
                            entityId2: Option<string>, customerMessage2: Option<string>)
    ensures var first := HandleError(error, op, entityType, entityId, customerMessage);
            HandleError(Raised(first), op2, entityType2, entityId2, customerMessage2) == first
  {
  }

  /** The default message names the operation and the entity, mentions the
      identifier exactly when one is given, and ends with a full stop. */
  lemma DefaultMessageShape(op: Operation, entityType: string, entityId: Option<string>)
    ensures var m := DefaultMessage(op, entityType, entityId);
            && m[..10] == "Failed to "
            && m[|m| - 1] == '.'
            && (Truthy(entityId) <==> |m| > |"Failed to " + OperationName(op) + " " + entityType + "."|)
  {
  }
}
