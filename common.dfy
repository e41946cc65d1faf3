/** Values shared by every service of the back end: optional values, the
    exceptions the services throw, what a failed call can carry, and the
    decimal rendering of numeric identifiers used inside messages. */
module Common {

  /** Row identifiers. The database assigns them; the model allocates them
      from a counter so that fresh ones are easy to exhibit. */
  type Id = nat

  datatype Option<+T> = None | Some(value: T)

  /** The HTTP exceptions of the web framework the services throw. */
  datatype Exception =
    | BadRequest(message: string)
    | NotFound(message: string)
    | Unauthorized(message: string)
    | Conflict(message: string)
    | InternalServerError(message: string)
  {
    function Message(): string {
      match this
      case BadRequest(m) => m
      case NotFound(m) => m
      case Unauthorized(m) => m
      case Conflict(m) => m
      case InternalServerError(m) => m
    }
  }

  /** Everything a failed call can throw: one of the exceptions above, a
      known database error with its code, any other error object, or a bare
      string (the post service rethrows `error.message`). */
  datatype Failure =
    | Raised(ex: Exception)
    | PrismaKnown(code: string)
    | OtherError(message: string)
    | ThrownString(text: string)

  /** The outcome of an operation: a value, or what it threw. */
  datatype Result<+T> = Ok(value: T) | Err(failure: Failure)

  /** JavaScript truthiness of an optional string: absent and "" are falsy. */
  predicate Truthy(s: Option<string>) {
    s.Some? && s.value != ""
  }

  function Min(a: int, b: int): int {
    if a <= b then a else b
  }

  predicate IsDigit(c: char) {
    '0' <= c <= '9'
  }

  function DigitChar(d: nat): (c: char)
    requires d < 10
    ensures IsDigit(c)
  {
    ['0', '1', '2', '3', '4', '5', '6', '7', '8', '9'][d]
  }

  function DigitValue(c: char): (d: nat)
    requires IsDigit(c)
    ensures d < 10 && DigitChar(d) == c
  {
    (c as int - '0' as int) as nat
  }

  /** The value of a string of decimal digits, most significant first. */
  function DigitsValue(s: string): nat
    requires forall i :: 0 <= i < |s| ==> IsDigit(s[i])
  {
    if s == [] then 0 else DigitsValue(s[..|s| - 1]) * 10 + DigitValue(s[|s| - 1])
  }

  /** Decimal rendering of a natural number, as `${n}` gives it. */
  function NatToString(n: nat): (s: string)
    ensures |s| > 0
    ensures forall i :: 0 <= i < |s| ==> IsDigit(s[i])
    ensures |s| > 1 ==> s[0] != '0'
  {
    if n < 10 then [DigitChar(n)] else NatToString(n / 10) + [DigitChar(n % 10)]
  }

  /** Reading back the decimal rendering gives the number again. */
  lemma {:induction false} NatToStringRoundTrip(n: nat)
    ensures DigitsValue(NatToString(n)) == n
  {
    var s := NatToString(n);
    if n >= 10 {
      NatToStringRoundTrip(n / 10);
      assert s[..|s| - 1] == NatToString(n / 10);
    }
  }
}
