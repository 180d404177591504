/** `CouponSystemExceptionHandler`: turns the exceptions the controllers raise into error
    responses carrying an HTTP status, the status's reason phrase before the exception's
    message, and a timestamp. Exceptions it has no handler for get no such response. */
module ExceptionHandler {
  import opened Common
  import opened Errors

  datatype ErrorResponse = ErrorResponse(status: int, message: string, timestampMillis: int)

  /** Reason phrases of the statuses used, as section 15 of RFC 9110 names them. */
  function ReasonPhrase(status: int): string {
    match status
    case 401 => "Unauthorized"
    case 403 => "Forbidden"
    case 404 => "Not Found"
    case 406 => "Not Acceptable"
    case 409 => "Conflict"
    case _ => ""
  }

  /** The handled kinds: every kind but the failed cast, the null dereference and the
      non-unique result. */
  predicate Handled(k: Kind) {
    !(k.WrongRole? || k.NullDereference? || k.NonUniqueResult?)
  }

  /** The `@ExceptionHandler` methods: each fixes the status and prefixes the message with the
      status's reason phrase. */
  function Respond(e: Error, now: int): (r: Option<ErrorResponse>)
    ensures r.Some? <==> Handled(e.kind)
    ensures r.Some? ==>
      && r.value.timestampMillis == now
      && r.value.message == ReasonPhrase(r.value.status) + ": " + e.message
    ensures r.Some? ==> (r.value.status == 401 <==> e.kind == InvalidLogin)
    ensures r.Some? ==> (r.value.status == 409 <==> e.kind == EmailAlreadyExists)
    ensures r.Some? ==> (r.value.status == 403 <==> e.kind == IllegalChange)
    ensures r.Some? ==> (r.value.status == 406 <==> e.kind == IllegalCoupon || e.kind == InvalidUser)
    ensures r.Some? ==>
      (r.value.status == 404 <==> e.kind == NoCompanyFound || e.kind == NoCouponFound || e.kind == NoCustomerFound)
  {
    var status :=
      match e.kind
      case InvalidLogin => 401
      case EmailAlreadyExists => 409
      case IllegalChange => 403
      case IllegalCoupon => 406
      case InvalidUser => 406
      case NoCompanyFound => 404
      case NoCouponFound => 404
      case NoCustomerFound => 404
      case _ => 0;
    if status == 0 then None
    else Some(ErrorResponse(status, ReasonPhrase(status) + ": " + e.message, now))
  }

  /** The exception's message is recovered from the response by dropping the reason phrase and
      the separator; so two errors of the same status answer alike only if their messages agree. */
  lemma MessageRecoverable(e1: Error, e2: Error, now: int)
    requires Handled(e1.kind) && Handled(e2.kind)
    ensures var r1 := Respond(e1, now).value;
      r1.message[|ReasonPhrase(r1.status)| + 2..] == e1.message
    ensures Respond(e1, now) == Respond(e2, now) ==> e1.message == e2.message
  {
    var r1 := Respond(e1, now).value;
    var p := ReasonPhrase(r1.status) + ": ";
    assert r1.message == p + e1.message;
    assert r1.message[|p|..] == e1.message;
    if Respond(e1, now) == Respond(e2, now) {
      var r2 := Respond(e2, now).value;
      assert r2.message == ReasonPhrase(r2.status) + ": " + e2.message;
      assert r2.message[|p|..] == e2.message;
    }
  }
}
