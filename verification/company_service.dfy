/** `CompanyServiceImpl`: the service a company login binds, fixed to that company's id. */
module CompanyService {
  import opened Common
  import opened Entities
  import opened Repository

  /** `findCurrentCompany`: the bound company, or `null` once it no longer exists. */
  function FindCurrentCompany(st: Store, companyId: int): (r: Option<Company>)
    ensures r.Some? <==> companyId in st.companies.rows
    ensures r.Some? ==> r.value == st.companies.rows[companyId]
  {
    Find(st.companies, companyId)
  }

  /** `save(Coupon)`: a coupon saved through a company's service always belongs to that company;
      when the company no longer exists nothing is saved and `null` comes back. The second
      component is the coupon object passed in, as the call leaves it. */
  function SaveCoupon(st: Store, companyId: int, coupon: Coupon): (r: (Store, Option<Coupon>, Coupon))
    ensures companyId !in st.companies.rows ==> r == (st, None, coupon)
    ensures companyId in st.companies.rows ==>
      && r.1 == Some(r.2)
      && r.2 == Adopt(coupon, companyId).(id := r.2.id)
      && (coupon.id in st.coupons.rows ==>
            r.2.id == coupon.id && r.0.coupons.rows == st.coupons.rows[coupon.id := r.2])
      && (coupon.id !in st.coupons.rows ==>
            r.2.id == st.coupons.nextId && r.0.coupons.rows == st.coupons.rows[r.2.id := r.2])
      && r.0.companies == st.companies && r.0.customers == st.customers && r.0.holdings == st.holdings
  {
    if companyId in st.companies.rows then
      var p := Repository.SaveCoupon(st, Adopt(coupon, companyId));
      (p.0, Some(p.1), p.1)
    else (st, None, coupon)
  }

  /** `findCompanyCoupons`: only the bound company's coupons, and all of them. */
  function FindCompanyCoupons(st: Store, companyId: int): (r: set<Coupon>)
    ensures forall c | c in r :: c.company == Some(companyId) && c in st.coupons.rows.Values
    ensures forall k | k in st.coupons.rows && st.coupons.rows[k].company == Some(companyId) :: st.coupons.rows[k] in r
  {
    CouponsOfCompany(st, companyId)
  }

  /** `findCouponById` and `findAllCoupons` are not scoped to the company: the controller alone
      enforces ownership. */
  function FindCouponById(st: Store, couponId: int): (r: Option<Coupon>)
    ensures r.Some? <==> couponId in st.coupons.rows
    ensures r.Some? ==> r.value == st.coupons.rows[couponId]
  {
    Find(st.coupons, couponId)
  }

  function FindAllCoupons(st: Store): (r: set<Coupon>)
    ensures r == st.coupons.rows.Values
  {
    st.coupons.rows.Values
  }
}
