/** `CustomerServiceImpl`: the service a customer login binds, fixed to that customer's id. */
module CustomerService {
  import opened Common
  import opened Entities
  import opened Repository

  /** `findCurrentCustomer`: the bound customer, or `null` once it no longer exists. */
  function FindCurrentCustomer(st: Store, customerId: int): (r: Option<Customer>)
    ensures r.Some? <==> customerId in st.customers.rows
    ensures r.Some? ==> r.value == st.customers.rows[customerId]
  {
    Find(st.customers, customerId)
  }

  /** `findCustomerCoupons`: the coupons linked to the bound customer, and only those. */
  function FindCustomerCoupons(st: Store, customerId: int): (r: set<Coupon>)
    ensures forall c | c in r :: exists k :: k in st.coupons.rows && st.coupons.rows[k] == c && Holding(customerId, k) in st.holdings
    ensures forall k | k in st.coupons.rows && Holding(customerId, k) in st.holdings :: st.coupons.rows[k] in r
  {
    CouponsOfCustomer(st, customerId)
  }

  /** `purchaseCoupon`: when both the bound customer and the coupon exist, the coupon joins the
      customer's coupons, its amount drops by one (in `int` arithmetic) and it is returned;
      otherwise nothing changes and `null` is returned. The service checks neither stock nor
      earlier purchases. */
  function PurchaseCoupon(st: Store, customerId: int, couponId: int): (r: (Store, Option<Coupon>))
    ensures customerId !in st.customers.rows || couponId !in st.coupons.rows ==> r == (st, None)
    ensures customerId in st.customers.rows && couponId in st.coupons.rows ==>
      var was := st.coupons.rows[couponId];
      && r.1 == Some(was.(amount := Decrement(was.amount)))
      && r.0.holdings == st.holdings + {Holding(customerId, couponId)}
      && r.0.coupons.rows == st.coupons.rows[couponId := r.1.value]
      && r.0.coupons.nextId == st.coupons.nextId
      && r.0.companies == st.companies && r.0.customers == st.customers
  {
    if customerId in st.customers.rows && couponId in st.coupons.rows then
      var c := st.coupons.rows[couponId];
      var bought := c.(amount := Decrement(c.amount));
      (st.(coupons := st.coupons.(rows := st.coupons.rows[couponId := bought]),
           holdings := st.holdings + {Holding(customerId, couponId)}),
       Some(bought))
    else (st, None)
  }

  /** Unscoped reads: a customer sees every coupon. */
  function FindCouponById(st: Store, couponId: int): (r: Option<Coupon>)
    ensures r.Some? <==> couponId in st.coupons.rows
    ensures r.Some? ==> r.value == st.coupons.rows[couponId]
  {
    Find(st.coupons, couponId)
  }
}
