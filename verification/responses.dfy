/** What an endpoint hands back to the transport layer when its checks pass: the store after the
    call and the response body. */
module Responses {
  import opened Common
  import opened Errors
  import opened Entities
  import opened Repository

  /** A response body. `Nothing` is a 200 without a body (a void endpoint, or a `null` body);
      `NoContent` is the 204 the list endpoints answer for an empty list. */
  datatype Payload =
    | Nothing
    | NoContent
    | OneCustomer(customer: Customer)
    | OneCompany(company: Company)
    | OneCoupon(coupon: Coupon)
    | Customers(customers: set<Customer>)
    | Companies(companies: set<Company>)
    | Coupons(coupons: set<Coupon>)
    | CompanyId(companyId: int)

  datatype Effect = Effect(store: Store, payload: Payload)

  type Outcome = Result<Effect, Error>

  /** A check that passes (`Ok(())`) or raises. */
  type Check = Result<(), Error>

  /** A list endpoint: 204 for an empty list, the list otherwise. */
  function CustomerList(s: set<Customer>): (r: Payload)
    ensures r == NoContent <==> s == {}
    ensures r != NoContent ==> r == Customers(s)
  {
    if s == {} then NoContent else Customers(s)
  }

  function CompanyList(s: set<Company>): (r: Payload)
    ensures r == NoContent <==> s == {}
    ensures r != NoContent ==> r == Companies(s)
  {
    if s == {} then NoContent else Companies(s)
  }

  function CouponList(s: set<Coupon>): (r: Payload)
    ensures r == NoContent <==> s == {}
    ensures r != NoContent ==> r == Coupons(s)
  {
    if s == {} then NoContent else Coupons(s)
  }
}
