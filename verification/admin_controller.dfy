/** `AdminController`: the administrator's endpoints over customers, companies and coupons. Each
    endpoint runs its checks in the order the source calls them, stops at the first that fails,
    and only then calls the service. The session lookup that precedes every check is modelled
    once, in `Endpoints`. */
module AdminController {
  import opened Common
  import opened Errors
  import opened Entities
  import opened Repository
  import opened Responses
  import opened Messages
  import opened Checks
  import AdminService

  // ------------------------------------------------------------------------------------------
  // Checks

  predicate CustomerEmailInUse(st: Store, email: Option<string>) {
    exists k | k in st.customers.rows :: st.customers.rows[k].email == email
  }

  predicate CompanyEmailInUse(st: Store, email: Option<string>) {
    exists k | k in st.companies.rows :: st.companies.rows[k].email == email
  }

  /** `checkIfCustomerEmailExists`: the scan over all customers stops at the first one with the
      same email. */
  function CheckCustomerEmailExists(st: Store, c: Customer): (r: Check)
    ensures r.Ok? <==> forall k | k in st.customers.rows :: st.customers.rows[k].email != c.email
    ensures r.Err? ==> r.error == Error(EmailAlreadyExists, EmailTaken("customer", c.email))
  {
    if CustomerEmailInUse(st, c.email) then Err(Error(EmailAlreadyExists, EmailTaken("customer", c.email)))
    else Ok(())
  }

  /** `checkIfCustomerExists`. */
  function CheckCustomerExists(st: Store, id: int): (r: Check)
    ensures r.Ok? <==> id in st.customers.rows
    ensures r.Err? ==> r.error == Error(NoCustomerFound, CustomerNotFound)
  {
    if id !in st.customers.rows then Err(Error(NoCustomerFound, CustomerNotFound)) else Ok(())
  }

  /** `checkIfCustomerEmailChanged`: the customer must exist and keep its stored email. */
  function CheckCustomerEmailChanged(st: Store, c: Customer): (r: Check)
    ensures r.Ok? <==> c.id in st.customers.rows && st.customers.rows[c.id].email == c.email
    ensures r.Err? && c.id !in st.customers.rows ==> r.error.kind == NoCustomerFound
    ensures r.Err? && c.id in st.customers.rows ==>
      r.error == Error(IllegalChange, CustomerEmailChange(st.customers.rows[c.id].email, c.email))
  {
    var _ :- CheckCustomerExists(st, c.id);
    var original := st.customers.rows[c.id];
    if original.email != c.email then Err(Error(IllegalChange, CustomerEmailChange(original.email, c.email)))
    else Ok(())
  }

  /** `checkIfCompanyEmailExists`. */
  function CheckCompanyEmailExists(st: Store, c: Company): (r: Check)
    ensures r.Ok? <==> forall k | k in st.companies.rows :: st.companies.rows[k].email != c.email
    ensures r.Err? ==> r.error == Error(EmailAlreadyExists, EmailTaken("company", c.email))
  {
    if CompanyEmailInUse(st, c.email) then Err(Error(EmailAlreadyExists, EmailTaken("company", c.email)))
    else Ok(())
  }

  /** `checkIfCompanyExists`. */
  function CheckCompanyExists(st: Store, id: int): (r: Check)
    ensures r.Ok? <==> id in st.companies.rows
    ensures r.Err? ==> r.error == Error(NoCompanyFound, CompanyNotFound)
  {
    if id !in st.companies.rows then Err(Error(NoCompanyFound, CompanyNotFound)) else Ok(())
  }

  /** `checkIfCompanyEmailChanged`. */
  function CheckCompanyEmailChanged(st: Store, c: Company): (r: Check)
    ensures r.Ok? <==> c.id in st.companies.rows && st.companies.rows[c.id].email == c.email
    ensures r.Err? && c.id !in st.companies.rows ==> r.error.kind == NoCompanyFound
    ensures r.Err? && c.id in st.companies.rows ==>
      r.error == Error(IllegalChange, EmailChange(st.companies.rows[c.id].email, c.email))
  {
    var _ :- CheckCompanyExists(st, c.id);
    var original := st.companies.rows[c.id];
    if original.email != c.email then Err(Error(IllegalChange, EmailChange(original.email, c.email)))
    else Ok(())
  }

  /** `checkIfCouponExists`. */
  function CheckCouponExists(st: Store, id: int): (r: Check)
    ensures r.Ok? <==> id in st.coupons.rows
    ensures r.Err? ==> r.error == Error(NoCouponFound, CouponNotFoundAdmin)
  {
    if id !in st.coupons.rows then Err(Error(NoCouponFound, CouponNotFoundAdmin)) else Ok(())
  }

  /** The update rule for a coupon: complete, sent for an existing company, naming an existing
      coupon that this company owns, with the title unchanged. */
  predicate CouponUpdatable(st: Store, c: Coupon, companyId: int) {
    && CouponComplete(c)
    && companyId in st.companies.rows
    && c.id in st.coupons.rows
    && st.coupons.rows[c.id].company == Some(companyId)
    && st.coupons.rows[c.id].title == c.title
  }

  /** `checkIfCouponValidToUpdate`, with its error precedence. */
  function CheckCouponValidToUpdate(st: Store, c: Coupon, companyId: int): (r: Check)
    ensures r.Ok? <==> CouponUpdatable(st, c, companyId)
    ensures r.Err? ==>
      r.error.kind == (
        if !CouponComplete(c) then IllegalCoupon
        else if companyId !in st.companies.rows then NoCompanyFound
        else if c.id !in st.coupons.rows then NoCouponFound
        else if st.coupons.rows[c.id].company != Some(companyId) then IllegalChange
        else IllegalCoupon)
  {
    var _ :- CheckCouponIsValid(c);
    var _ :- CheckCompanyExists(st, companyId);
    var _ :- CheckCouponExists(st, c.id);
    var original := st.coupons.rows[c.id];
    if original.company != Some(companyId) then Err(Error(IllegalChange, CouponNotOfCompany))
    else if original.title != c.title then Err(Error(IllegalCoupon, TitleChange(original.title, c.title)))
    else Ok(())
  }

  // ------------------------------------------------------------------------------------------
  // Customer endpoints

  /** `addCustomer`: a customer with credentials and an unused email goes in under a new key. */
  function AddCustomer(st: Store, c: Customer): (r: Outcome)
    ensures r.Ok? <==> CustomerHasCredentials(c) && !CustomerEmailInUse(st, c.email)
    ensures r.Err? ==> r.error.kind == (if CustomerHasCredentials(c) then EmailAlreadyExists else InvalidUser)
    ensures r.Ok? && KeysIssued(st.customers) ==>
      && r.value.payload.OneCustomer?
      && r.value.payload.customer == c.(id := r.value.payload.customer.id)
      && Inserted(st.customers, r.value.store.customers, r.value.payload.customer.id, r.value.payload.customer)
      && r.value.store == st.(customers := r.value.store.customers)
  {
    var _ :- CheckCustomerIsValid(c);
    var _ :- CheckCustomerEmailExists(st, c);
    var p := SaveCustomer(st, c.(id := 0));
    Ok(Effect(p.0, OneCustomer(p.1)))
  }

  /** `updateCustomer`: an existing customer may change anything but its email. */
  function UpdateCustomer(st: Store, c: Customer): (r: Outcome)
    ensures r.Ok? <==>
      CustomerHasCredentials(c) && c.id in st.customers.rows && st.customers.rows[c.id].email == c.email
    ensures r.Err? ==>
      r.error.kind == (
        if !CustomerHasCredentials(c) then InvalidUser
        else if c.id !in st.customers.rows then NoCustomerFound
        else IllegalChange)
    ensures r.Ok? ==>
      && Replaced(st.customers, r.value.store.customers, c.id, c)
      && r.value.store == st.(customers := r.value.store.customers)
      && r.value.payload == OneCustomer(c)
  {
    var _ :- CheckCustomerIsValid(c);
    var _ :- CheckCustomerEmailChanged(st, c);
    var p := SaveCustomer(st, c);
    Ok(Effect(p.0, OneCustomer(p.1)))
  }

  /** `deleteCustomer`: an existing customer goes, with every coupon it holds released. */
  function DeleteCustomer(st: Store, id: int): (r: Outcome)
    ensures r.Ok? <==> id in st.customers.rows
    ensures r.Err? ==> r.error == Error(NoCustomerFound, CustomerNotFound)
    ensures r.Ok? ==>
      && r.value.payload == Nothing
      && r.value.store.customers.rows.Keys == st.customers.rows.Keys - {id}
      && (forall k | k in r.value.store.customers.rows :: r.value.store.customers.rows[k] == st.customers.rows[k])
      && (forall h :: h in r.value.store.holdings <==> h in st.holdings && h.customer != id)
      && r.value.store.coupons == st.coupons && r.value.store.companies == st.companies
  {
    var _ :- CheckCustomerExists(st, id);
    Ok(Effect(AdminService.DeleteCustomer(st, id), Nothing))
  }

  /** `findAllCustomers`: every customer, or 204 when there is none. */
  function FindAllCustomers(st: Store): (r: Outcome)
    ensures r.Ok? && r.value.store == st
    ensures r.value.payload == NoContent <==> st.customers.rows == map[]
    ensures r.value.payload != NoContent ==> r.value.payload == Customers(st.customers.rows.Values)
  {
    Ok(Effect(st, CustomerList(st.customers.rows.Values)))
  }

  /** `findCustomerById`. */
  function FindCustomerById(st: Store, id: int): (r: Outcome)
    ensures r.Ok? <==> id in st.customers.rows
    ensures r.Err? ==> r.error == Error(NoCustomerFound, CustomerNotFound)
    ensures r.Ok? ==> r.value == Effect(st, OneCustomer(st.customers.rows[id]))
  {
    var _ :- CheckCustomerExists(st, id);
    Ok(Effect(st, OneCustomer(AdminService.FindCustomerById(st, id).value)))
  }

  /** `findCustomerCoupons(id)`: the coupons an existing customer holds, or 204. */
  function FindCustomerCoupons(st: Store, id: int): (r: Outcome)
    ensures r.Ok? <==> id in st.customers.rows
    ensures r.Err? ==> r.error == Error(NoCustomerFound, CustomerNotFound)
    ensures r.Ok? ==> r.value.store == st
    ensures r.Ok? ==> (r.value.payload == NoContent <==> forall k | k in st.coupons.rows :: Holding(id, k) !in st.holdings)
    ensures r.Ok? && r.value.payload != NoContent ==>
      r.value.payload.Coupons? && r.value.payload.coupons == CouponsOfCustomer(st, id)
  {
    var _ :- CheckCustomerExists(st, id);
    Ok(Effect(st, CouponList(AdminService.FindCustomerCoupons(st, id))))
  }

  // ------------------------------------------------------------------------------------------
  // Company endpoints

  /** `addCompany`: a company with credentials and an unused email goes in under a new key. */
  function AddCompany(st: Store, c: Company): (r: Outcome)
    ensures r.Ok? <==> CompanyHasCredentials(c) && !CompanyEmailInUse(st, c.email)
    ensures r.Err? ==> r.error.kind == (if CompanyHasCredentials(c) then EmailAlreadyExists else InvalidUser)
    ensures r.Ok? && KeysIssued(st.companies) ==>
      && r.value.payload.OneCompany?
      && r.value.payload.company == c.(id := r.value.payload.company.id)
      && Inserted(st.companies, r.value.store.companies, r.value.payload.company.id, r.value.payload.company)
      && r.value.store == st.(companies := r.value.store.companies)
  {
    var _ :- CheckCompanyIsValid(c);
    var _ :- CheckCompanyEmailExists(st, c);
    var p := SaveCompany(st, c.(id := 0));
    Ok(Effect(p.0, OneCompany(p.1)))
  }

  /** `updateCompany`: an existing company may change anything but its email. */
  function UpdateCompany(st: Store, c: Company): (r: Outcome)
    ensures r.Ok? <==>
      CompanyHasCredentials(c) && c.id in st.companies.rows && st.companies.rows[c.id].email == c.email
    ensures r.Err? ==>
      r.error.kind == (
        if !CompanyHasCredentials(c) then InvalidUser
        else if c.id !in st.companies.rows then NoCompanyFound
        else IllegalChange)
    ensures r.Ok? ==>
      && Replaced(st.companies, r.value.store.companies, c.id, c)
      && r.value.store == st.(companies := r.value.store.companies)
      && r.value.payload == OneCompany(c)
  {
    var _ :- CheckCompanyIsValid(c);
    var _ :- CheckCompanyEmailChanged(st, c);
    var p := SaveCompany(st, c);
    Ok(Effect(p.0, OneCompany(p.1)))
  }

  /** `deleteCompany`: an existing company goes, and its coupons go with it. */
  function DeleteCompany(st: Store, id: int): (r: Outcome)
    ensures r.Ok? <==> id in st.companies.rows
    ensures r.Err? ==> r.error == Error(NoCompanyFound, CompanyNotFound)
    ensures r.Ok? ==>
      && r.value.payload == Nothing
      && r.value.store.companies.rows.Keys == st.companies.rows.Keys - {id}
      && (forall k | k in r.value.store.coupons.rows :: r.value.store.coupons.rows[k].company != Some(id))
      && (forall k | k in st.coupons.rows && st.coupons.rows[k].company != Some(id) :: k in r.value.store.coupons.rows)
      && (forall k | k in r.value.store.coupons.rows :: k in st.coupons.rows && r.value.store.coupons.rows[k] == st.coupons.rows[k])
      && (forall k | k in r.value.store.companies.rows :: r.value.store.companies.rows[k] == st.companies.rows[k])
      && (forall h :: h in r.value.store.holdings <==>
            h in st.holdings && !(h.coupon in st.coupons.rows && st.coupons.rows[h.coupon].company == Some(id)))
      && r.value.store.customers == st.customers
  {
    var _ :- CheckCompanyExists(st, id);
    Ok(Effect(AdminService.DeleteCompany(st, id), Nothing))
  }

  /** `findAllCompanies`: every company, or 204 when there is none. */
  function FindAllCompanies(st: Store): (r: Outcome)
    ensures r.Ok? && r.value.store == st
    ensures r.value.payload == NoContent <==> st.companies.rows == map[]
    ensures r.value.payload != NoContent ==> r.value.payload == Companies(st.companies.rows.Values)
  {
    Ok(Effect(st, CompanyList(st.companies.rows.Values)))
  }

  /** `findCompanyById`. */
  function FindCompanyById(st: Store, id: int): (r: Outcome)
    ensures r.Ok? <==> id in st.companies.rows
    ensures r.Err? ==> r.error == Error(NoCompanyFound, CompanyNotFound)
    ensures r.Ok? ==> r.value == Effect(st, OneCompany(st.companies.rows[id]))
  {
    var _ :- CheckCompanyExists(st, id);
    Ok(Effect(st, OneCompany(AdminService.FindCompanyById(st, id).value)))
  }

  /** `findCompanyCoupons(id)`: the coupons an existing company owns, or 204. */
  function FindCompanyCoupons(st: Store, id: int): (r: Outcome)
    ensures r.Ok? <==> id in st.companies.rows
    ensures r.Err? ==> r.error == Error(NoCompanyFound, CompanyNotFound)
    ensures r.Ok? ==> r.value.store == st
    ensures r.Ok? ==>
      (r.value.payload == NoContent <==> forall k | k in st.coupons.rows :: st.coupons.rows[k].company != Some(id))
    ensures r.Ok? && r.value.payload != NoContent ==>
      r.value.payload.Coupons? && r.value.payload.coupons == CouponsOfCompany(st, id)
  {
    var _ :- CheckCompanyExists(st, id);
    Ok(Effect(st, CouponList(AdminService.FindCompanyCoupons(st, id))))
  }

  // ------------------------------------------------------------------------------------------
  // Coupon endpoints

  /** `addCoupon`: a complete coupon with an unused title goes in under a new key, owned by the
      company named in the path, which must exist. */
  function AddCoupon(st: Store, c: Coupon, companyId: int): (r: Outcome)
    ensures r.Ok? <==> CouponComplete(c) && companyId in st.companies.rows && !CouponTitleInUse(st, c.title)
    ensures r.Err? ==>
      r.error.kind == (if CouponComplete(c) && companyId !in st.companies.rows then NoCompanyFound else IllegalCoupon)
    ensures r.Ok? && KeysIssued(st.coupons) ==>
      && r.value.payload.OneCoupon?
      && r.value.payload.coupon == c.(id := r.value.payload.coupon.id, company := Some(companyId))
      && Inserted(st.coupons, r.value.store.coupons, r.value.payload.coupon.id, r.value.payload.coupon)
      && r.value.store == st.(coupons := r.value.store.coupons)
  {
    var _ :- CheckCouponIsValid(c);
    var _ :- CheckCompanyExists(st, companyId);
    var _ :- CheckCouponTitleExists(st, c);
    var p := AdminService.SaveCoupon(st, c.(id := 0), companyId);
    Ok(Effect(p.0, OneCoupon(p.1)))
  }

  /** `updateCoupon`: the coupon's row is replaced by the one sent, still owned by the same
      company. */
  function UpdateCoupon(st: Store, c: Coupon, companyId: int): (r: Outcome)
    ensures r.Ok? <==> CouponUpdatable(st, c, companyId)
    ensures r.Err? ==> r.error == CheckCouponValidToUpdate(st, c, companyId).error
    ensures r.Ok? ==>
      && Replaced(st.coupons, r.value.store.coupons, c.id, Adopt(c, companyId))
      && r.value.store == st.(coupons := r.value.store.coupons)
      && r.value.payload == OneCoupon(Adopt(c, companyId))
  {
    var _ :- CheckCouponValidToUpdate(st, c, companyId);
    var p := AdminService.SaveCoupon(st, c, companyId);
    Ok(Effect(p.0, OneCoupon(p.1)))
  }

  /** `deleteCoupon`: an existing coupon goes, and every customer's hold on it. */
  function DeleteCoupon(st: Store, id: int): (r: Outcome)
    ensures r.Ok? <==> id in st.coupons.rows
    ensures r.Err? ==> r.error == Error(NoCouponFound, CouponNotFoundAdmin)
    ensures r.Ok? ==>
      && r.value.payload == Nothing
      && r.value.store.coupons.rows.Keys == st.coupons.rows.Keys - {id}
      && (forall k | k in r.value.store.coupons.rows :: r.value.store.coupons.rows[k] == st.coupons.rows[k])
      && (forall h :: h in r.value.store.holdings <==> h in st.holdings && h.coupon != id)
      && r.value.store.companies == st.companies && r.value.store.customers == st.customers
  {
    var _ :- CheckCouponExists(st, id);
    Ok(Effect(AdminService.DeleteCoupon(st, id), Nothing))
  }

  /** `findAllCoupons`: every coupon, or 204 when there is none. */
  function FindAllCoupons(st: Store): (r: Outcome)
    ensures r.Ok? && r.value.store == st
    ensures r.value.payload == NoContent <==> st.coupons.rows == map[]
    ensures r.value.payload != NoContent ==> r.value.payload == Coupons(st.coupons.rows.Values)
  {
    Ok(Effect(st, CouponList(st.coupons.rows.Values)))
  }

  /** `findCouponById`. */
  function FindCouponById(st: Store, id: int): (r: Outcome)
    ensures r.Ok? <==> id in st.coupons.rows
    ensures r.Err? ==> r.error == Error(NoCouponFound, CouponNotFoundAdmin)
    ensures r.Ok? ==> r.value == Effect(st, OneCoupon(st.coupons.rows[id]))
  {
    var _ :- CheckCouponExists(st, id);
    Ok(Effect(st, OneCoupon(AdminService.FindCouponById(st, id).value)))
  }

  /** `GetCompanyIdFromCoupon`: the id of the company owning an existing coupon. */
  function GetCompanyIdFromCoupon(st: Store, id: int): (r: Outcome)
    ensures id !in st.coupons.rows ==> r == Err(Error(NoCouponFound, CouponNotFoundAdmin))
    ensures r.Ok? ==>
      && r.value.store == st
      && r.value.payload.CompanyId?
      && id in st.coupons.rows
      && st.coupons.rows[id].company == Some(r.value.payload.companyId)
      && r.value.payload.companyId in st.companies.rows
    ensures Valid(st) ==> (r.Ok? <==> id in st.coupons.rows)
  {
    var _ :- CheckCouponExists(st, id);
    var companyId :- AdminService.GetCompanyIdFromCoupon(st, id);
    var _ :- CheckCompanyExists(st, companyId);
    Ok(Effect(st, CompanyId(companyId)))
  }
}
