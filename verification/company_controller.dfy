/** `CompanyController`: the endpoints of a company session, bound to the id of the company that
    logged in. The company may still be logged in after the administrator deleted it; the
    endpoints that look the company up without checking first then dereference `null`. */
module CompanyController {
  import opened Common
  import opened Errors
  import opened Entities
  import opened Repository
  import opened Responses
  import opened Messages
  import opened Checks
  import CompanyService

  const NoCurrentCompany := Error(NullDereference, "findCurrentCompany() returned null")

  // ------------------------------------------------------------------------------------------
  // Checks

  /** `checkIfCompanyExists`: the bound company is still stored. */
  function CheckCompanyExists(st: Store, me: int): (r: Check)
    ensures r.Ok? <==> me in st.companies.rows
    ensures r.Err? ==> r.error == Error(NoCompanyFound, CurrentCompanyNotFound)
  {
    match CompanyService.FindCurrentCompany(st, me)
    case None => Err(Error(NoCompanyFound, CurrentCompanyNotFound))
    case Some(_) => Ok(())
  }

  /** `checkIfCouponExists`. */
  function CheckCouponExists(st: Store, id: int): (r: Check)
    ensures r.Ok? <==> id in st.coupons.rows
    ensures r.Err? ==> r.error == Error(NoCouponFound, CouponNotFound)
  {
    match CompanyService.FindCouponById(st, id)
    case None => Err(Error(NoCouponFound, CouponNotFound))
    case Some(_) => Ok(())
  }

  /** `checkIfCouponAssociatedToCurrentCompany`: the coupon's owner is the bound company, as
      identified by the id of its stored row. */
  function CheckCouponAssociated(st: Store, me: int, coupon: Coupon): (r: Check)
    ensures me !in st.companies.rows ==> r == Err(NoCurrentCompany)
    ensures me in st.companies.rows ==>
      (r.Ok? <==> coupon.company == Some(st.companies.rows[me].id))
    ensures me in st.companies.rows && r.Err? ==> r.error == Error(IllegalChange, CouponNotOwned)
  {
    match CompanyService.FindCurrentCompany(st, me)
    case None => Err(NoCurrentCompany)
    case Some(current) =>
      if coupon.company != Some(current.id) then Err(Error(IllegalChange, CouponNotOwned)) else Ok(())
  }

  /** `checkIfCompanyValidToUpdate`: the company sent has credentials, is the bound company,
      and keeps its email. */
  function CheckCompanyValidToUpdate(st: Store, me: int, c: Company): (r: Check)
    ensures CompanyHasCredentials(c) && me !in st.companies.rows ==> r == Err(NoCurrentCompany)
    ensures r.Ok? <==>
      && CompanyHasCredentials(c)
      && me in st.companies.rows
      && st.companies.rows[me].id == c.id
      && st.companies.rows[me].email == c.email
    ensures r.Err? ==>
      r.error.kind == (
        if !CompanyHasCredentials(c) then InvalidUser
        else if me !in st.companies.rows then NullDereference
        else IllegalChange)
  {
    var _ :- CheckCompanyIsValid(c);
    match CompanyService.FindCurrentCompany(st, me)
    case None => Err(NoCurrentCompany)
    case Some(original) =>
      if original.id != c.id then Err(Error(IllegalChange, CompanyIdMismatch))
      else if original.email != c.email then Err(Error(IllegalChange, EmailChange(original.email, c.email)))
      else Ok(())
  }

  /** `checkIfCouponValidToUpdate`. */
  function CheckCouponValidToUpdate(st: Store, me: int, c: Coupon): (r: Check)
    ensures r.Ok? <==>
      && c.id in st.coupons.rows
      && CouponComplete(c)
      && me in st.companies.rows
      && st.coupons.rows[c.id].company == Some(st.companies.rows[me].id)
      && st.coupons.rows[c.id].title == c.title
    ensures r.Err? ==>
      r.error.kind == (
        if c.id !in st.coupons.rows then NoCouponFound
        else if !CouponComplete(c) then IllegalCoupon
        else if me !in st.companies.rows then NullDereference
        else if st.coupons.rows[c.id].company != Some(st.companies.rows[me].id) then IllegalChange
        else IllegalCoupon)
  {
    var _ :- CheckCouponExists(st, c.id);
    var _ :- CheckCouponIsValid(c);
    var original := st.coupons.rows[c.id];
    var _ :- CheckCouponAssociated(st, me, original);
    if original.title != c.title then Err(Error(IllegalCoupon, TitleChange(original.title, c.title)))
    else Ok(())
  }

  // ------------------------------------------------------------------------------------------
  // Endpoints

  /** `getCurrentCompany`. */
  function GetCurrentCompany(st: Store, me: int): (r: Outcome)
    ensures r.Ok? <==> me in st.companies.rows
    ensures r.Err? ==> r.error == Error(NoCompanyFound, CurrentCompanyNotFound)
    ensures r.Ok? ==> r.value == Effect(st, OneCompany(st.companies.rows[me]))
  {
    var _ :- CheckCompanyExists(st, me);
    Ok(Effect(st, OneCompany(CompanyService.FindCurrentCompany(st, me).value)))
  }

  /** `updateCompany`: the bound company may change anything but its id and its email. */
  function UpdateCompany(st: Store, me: int, c: Company): (r: Outcome)
    ensures r.Ok? <==> CheckCompanyValidToUpdate(st, me, c).Ok?
    ensures r.Err? ==> r.error == CheckCompanyValidToUpdate(st, me, c).error
    ensures r.Ok? && st.companies.rows[me].id == me ==>
      && c.id == me
      && Replaced(st.companies, r.value.store.companies, me, c)
      && r.value.store == st.(companies := r.value.store.companies)
      && r.value.payload == OneCompany(c)
  {
    var _ :- CheckCompanyValidToUpdate(st, me, c);
    Ok(Effect(SaveCompany(st, c).0, OneCompany(SaveCompany(st, c).1)))
  }

  /** `addCoupon`: a complete coupon with an unused title goes in under a new key, owned by the
      bound company. When that company no longer exists nothing is saved, yet the call succeeds
      and answers with the coupon as sent, its id reset. */
  function AddCoupon(st: Store, me: int, c: Coupon): (r: Outcome)
    ensures r.Ok? <==> CouponComplete(c) && !CouponTitleInUse(st, c.title)
    ensures r.Err? ==> r.error.kind == IllegalCoupon
    ensures r.Ok? && me in st.companies.rows && KeysIssued(st.coupons) ==>
      && r.value.payload.OneCoupon?
      && r.value.payload.coupon == c.(id := r.value.payload.coupon.id, company := Some(me))
      && Inserted(st.coupons, r.value.store.coupons, r.value.payload.coupon.id, r.value.payload.coupon)
      && r.value.store == st.(coupons := r.value.store.coupons)
    ensures r.Ok? && me !in st.companies.rows ==> r.value == Effect(st, OneCoupon(c.(id := 0)))
  {
    var _ :- CheckCouponIsValid(c);
    var _ :- CheckCouponTitleExists(st, c);
    var saved := CompanyService.SaveCoupon(st, me, c.(id := 0));
    Ok(Effect(saved.0, OneCoupon(saved.2)))
  }

  /** `updateCoupon`: only a coupon the bound company owns can be updated, and never its title. */
  function UpdateCoupon(st: Store, me: int, c: Coupon): (r: Outcome)
    ensures me !in st.companies.rows ==> r == Err(Error(NoCompanyFound, CurrentCompanyNotFound))
    ensures me in st.companies.rows ==>
      && (r.Ok? <==> CheckCouponValidToUpdate(st, me, c).Ok?)
      && (r.Err? ==> r.error == CheckCouponValidToUpdate(st, me, c).error)
    ensures r.Ok? && st.companies.rows[me].id == me ==>
      && st.coupons.rows[c.id].company == Some(me)
      && Replaced(st.coupons, r.value.store.coupons, c.id, Adopt(c, me))
      && r.value.store == st.(coupons := r.value.store.coupons)
      && r.value.payload == OneCoupon(Adopt(c, me))
  {
    var _ :- CheckCompanyExists(st, me);
    var _ :- CheckCouponValidToUpdate(st, me, c);
    var saved := CompanyService.SaveCoupon(st, me, c);
    Ok(Effect(saved.0, OneCoupon(saved.2)))
  }

  /** `findCompanyCoupons`: the bound company's coupons, or 204. */
  function FindCompanyCoupons(st: Store, me: int): (r: Outcome)
    ensures r.Ok? && r.value.store == st
    ensures r.value.payload == NoContent <==> forall k | k in st.coupons.rows :: st.coupons.rows[k].company != Some(me)
    ensures r.value.payload != NoContent ==>
      r.value.payload.Coupons? && (forall c | c in r.value.payload.coupons :: c.company == Some(me))
    ensures r.value.payload != NoContent ==> r.value.payload.coupons == CouponsOfCompany(st, me)
  {
    Ok(Effect(st, CouponList(CompanyService.FindCompanyCoupons(st, me))))
  }

  /** `findCouponById`: a company sees a coupon only if it owns it. */
  function FindCouponById(st: Store, me: int, id: int): (r: Outcome)
    ensures id !in st.coupons.rows ==> r == Err(Error(NoCouponFound, CouponNotFound))
    ensures id in st.coupons.rows && me !in st.companies.rows ==> r == Err(NoCurrentCompany)
    ensures r.Ok? <==>
      id in st.coupons.rows && me in st.companies.rows
      && st.coupons.rows[id].company == Some(st.companies.rows[me].id)
    ensures r.Ok? ==> r.value == Effect(st, OneCoupon(st.coupons.rows[id]))
  {
    var _ :- CheckCouponExists(st, id);
    var coupon := CompanyService.FindCouponById(st, id).value;
    var _ :- CheckCouponAssociated(st, me, coupon);
    Ok(Effect(st, OneCoupon(coupon)))
  }
}
