/** `AdminServiceImpl`: unscoped access to every table. */
module AdminService {
  import opened Common
  import opened Errors
  import opened Entities
  import opened Repository

  /** `findCustomerById`, `findCompanyById`, `findCouponById`: the stored row, or `null` when the
      id has none. */
  function FindCustomerById(st: Store, id: int): (r: Option<Customer>)
    ensures r.Some? <==> id in st.customers.rows
    ensures r.Some? ==> r.value == st.customers.rows[id]
  {
    Find(st.customers, id)
  }

  function FindCompanyById(st: Store, id: int): (r: Option<Company>)
    ensures r.Some? <==> id in st.companies.rows
    ensures r.Some? ==> r.value == st.companies.rows[id]
  {
    Find(st.companies, id)
  }

  function FindCouponById(st: Store, id: int): (r: Option<Coupon>)
    ensures r.Some? <==> id in st.coupons.rows
    ensures r.Some? ==> r.value == st.coupons.rows[id]
  {
    Find(st.coupons, id)
  }

  /** `findCustomerCoupons(id)`: exactly the coupons the given customer holds. */
  function FindCustomerCoupons(st: Store, customerId: int): (r: set<Coupon>)
    ensures forall c | c in r :: exists k :: k in st.coupons.rows && st.coupons.rows[k] == c && Holding(customerId, k) in st.holdings
    ensures forall k | k in st.coupons.rows && Holding(customerId, k) in st.holdings :: st.coupons.rows[k] in r
  {
    CouponsOfCustomer(st, customerId)
  }

  /** `findCompanyCoupons(id)`: exactly the coupons owned by the given company. */
  function FindCompanyCoupons(st: Store, companyId: int): (r: set<Coupon>)
    ensures forall c | c in r :: c.company == Some(companyId) && c in st.coupons.rows.Values
    ensures forall k | k in st.coupons.rows && st.coupons.rows[k].company == Some(companyId) :: st.coupons.rows[k] in r
  {
    CouponsOfCompany(st, companyId)
  }

  /** `deleteCustomer`, `deleteCompany`, `deleteCoupon`: the row with that id goes (with the
      cascades of the schema) and no other row of its table changes. Spring Data throws for an
      id without a row; the controllers check existence first. */
  function DeleteCustomer(st: Store, id: int): (r: Store)
    requires id in st.customers.rows
    ensures r.customers.rows == st.customers.rows - {id}
    ensures r.companies == st.companies && r.coupons == st.coupons
    ensures forall h :: h in r.holdings <==> h in st.holdings && h.customer != id
  {
    Repository.DeleteCustomer(st, id)
  }

  function DeleteCompany(st: Store, id: int): (r: Store)
    requires id in st.companies.rows
    ensures r.companies.rows == st.companies.rows - {id}
    ensures forall k :: k in r.coupons.rows <==> k in st.coupons.rows && st.coupons.rows[k].company != Some(id)
    ensures forall k | k in r.coupons.rows :: r.coupons.rows[k] == st.coupons.rows[k]
    ensures r.customers == st.customers
    ensures forall h :: h in r.holdings <==>
      h in st.holdings && !(h.coupon in st.coupons.rows && st.coupons.rows[h.coupon].company == Some(id))
  {
    Repository.DeleteCompany(st, id)
  }

  function DeleteCoupon(st: Store, id: int): (r: Store)
    requires id in st.coupons.rows
    ensures r.coupons.rows == st.coupons.rows - {id}
    ensures r.companies == st.companies && r.customers == st.customers
    ensures forall h :: h in r.holdings <==> h in st.holdings && h.coupon != id
  {
    DeleteCoupons(st, {id})
  }

  /** `saveCoupon(coupon, companyId)`: when the company exists the coupon is attached to it and
      saved; otherwise nothing is saved. The method returns `null`; what the caller sees is the
      coupon object it passed in, mutated by the call, which is the second component. */
  function SaveCoupon(st: Store, coupon: Coupon, companyId: int): (r: (Store, Coupon))
    ensures companyId !in st.companies.rows ==> r == (st, coupon)
    ensures companyId in st.companies.rows ==>
      && r.1 == Adopt(coupon, companyId).(id := r.1.id)
      && (coupon.id in st.coupons.rows ==>
            r.1.id == coupon.id && r.0.coupons.rows == st.coupons.rows[coupon.id := r.1])
      && (coupon.id !in st.coupons.rows ==>
            r.1.id == st.coupons.nextId && r.0.coupons.rows == st.coupons.rows[r.1.id := r.1])
      && r.0.companies == st.companies && r.0.customers == st.customers && r.0.holdings == st.holdings
  {
    if companyId in st.companies.rows then Repository.SaveCoupon(st, Adopt(coupon, companyId))
    else (st, coupon)
  }

  /** `getCompanyIdFromCoupon`: the owning company's id, or 0 when there is no such coupon.
      A stored coupon without an owner would be dereferenced as `null`. */
  function GetCompanyIdFromCoupon(st: Store, couponId: int): (r: Result<int, Error>)
    ensures couponId !in st.coupons.rows ==> r == Ok(0)
    ensures couponId in st.coupons.rows && st.coupons.rows[couponId].company.Some? ==>
      r == Ok(st.coupons.rows[couponId].company.value)
    ensures Valid(st) ==> r.Ok?
  {
    match Find(st.coupons, couponId)
    case None => Ok(0)
    case Some(c) =>
      match c.company
      case Some(owner) => Ok(owner)
      case None => Err(Error(NullDereference, "coupon without a company"))
  }
}
