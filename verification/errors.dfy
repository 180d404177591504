/** The exceptions the coupon system raises, with the messages the controllers attach to them. */
module Errors {

  /** One kind per exception class. The last three are not handled by the exception handler:
      a ClassCastException in `getService`, a NullPointerException, and the repository's
      "more than one row for a single-result query" failure. */
  datatype Kind =
    | InvalidLogin
    | EmailAlreadyExists
    | IllegalChange
    | IllegalCoupon
    | InvalidUser
    | NoCompanyFound
    | NoCouponFound
    | NoCustomerFound
    | WrongRole
    | NullDereference
    | NonUniqueResult

  datatype Error = Error(kind: Kind, message: string)

  /** Message of every failed login, whatever went wrong. */
  const BadCredentials := "The email or password are invalid!"

  /** Message of every token that is not in the registry. */
  const TimedOut := "The login timed out, please login again."
}
