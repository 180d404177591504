/** The checks more than one controller makes: each controller declares its own copy of them,
    and the copies agree. */
module Checks {
  import opened Common
  import opened Errors
  import opened Entities
  import opened Repository
  import opened Responses
  import opened Messages

  predicate CouponTitleInUse(st: Store, title: Option<string>) {
    exists k | k in st.coupons.rows :: st.coupons.rows[k].title == title
  }

  /** `checkIfCustomerIsValid`. */
  function CheckCustomerIsValid(c: Customer): (r: Check)
    ensures r.Ok? <==> CustomerHasCredentials(c)
    ensures r.Err? ==> r.error == Error(InvalidUser, CustomerInvalid)
  {
    if c.email.None? || c.password.None? then Err(Error(InvalidUser, CustomerInvalid)) else Ok(())
  }

  /** `checkIfCompanyIsValid`. */
  function CheckCompanyIsValid(c: Company): (r: Check)
    ensures r.Ok? <==> CompanyHasCredentials(c)
    ensures r.Err? ==> r.error == Error(InvalidUser, CompanyInvalid)
  {
    if c.email.None? || c.password.None? then Err(Error(InvalidUser, CompanyInvalid)) else Ok(())
  }

  /** `checkIfCouponIsValid`. */
  function CheckCouponIsValid(c: Coupon): (r: Check)
    ensures r.Ok? <==> CouponComplete(c)
    ensures r.Err? ==> r.error == Error(IllegalCoupon, CouponIncomplete)
  {
    if c.title.None? || c.endDate.None? then Err(Error(IllegalCoupon, CouponIncomplete)) else Ok(())
  }

  /** `checkIfCouponTitleExists`: titles are unique over all coupons of all companies. */
  function CheckCouponTitleExists(st: Store, c: Coupon): (r: Check)
    ensures r.Ok? <==> forall k | k in st.coupons.rows :: st.coupons.rows[k].title != c.title
    ensures r.Err? ==> r.error == Error(IllegalCoupon, TitleTaken(c.title))
  {
    if CouponTitleInUse(st, c.title) then Err(Error(IllegalCoupon, TitleTaken(c.title))) else Ok(())
  }
}
