/** `CustomerController`: the endpoints of a customer session, bound to the id of the customer
    that logged in. */
module CustomerController {
  import opened Common
  import opened Errors
  import opened Entities
  import opened Repository
  import opened Responses
  import opened Messages
  import opened Checks
  import CustomerService

  const NoCurrentCustomer := Error(NullDereference, "findCurrentCustomer() returned null")

  /** The bound customer already holds a coupon with the given id. */
  predicate Holds(st: Store, me: int, couponId: int) {
    exists k | k in st.coupons.rows && Holding(me, k) in st.holdings :: st.coupons.rows[k].id == couponId
  }

  // ------------------------------------------------------------------------------------------
  // Checks

  /** `checkIfCustomerExists`: the bound customer is still stored. */
  function CheckCustomerExists(st: Store, me: int): (r: Check)
    ensures r.Ok? <==> me in st.customers.rows
    ensures r.Err? ==> r.error == Error(NoCustomerFound, CurrentCustomerNotFound)
  {
    match CustomerService.FindCurrentCustomer(st, me)
    case None => Err(Error(NoCustomerFound, CurrentCustomerNotFound))
    case Some(_) => Ok(())
  }

  /** `checkIfCouponExists`. */
  function CheckCouponExists(st: Store, id: int): (r: Check)
    ensures r.Ok? <==> id in st.coupons.rows
    ensures r.Err? ==> r.error == Error(NoCouponFound, CouponNotFound)
  {
    match CustomerService.FindCouponById(st, id)
    case None => Err(Error(NoCouponFound, CouponNotFound))
    case Some(_) => Ok(())
  }

  /** `checkIfCustomerValidToUpdate`: the customer sent has credentials, is the bound customer,
      and keeps its email. */
  function CheckCustomerValidToUpdate(st: Store, me: int, c: Customer): (r: Check)
    ensures CustomerHasCredentials(c) && me !in st.customers.rows ==> r == Err(NoCurrentCustomer)
    ensures r.Ok? <==>
      && CustomerHasCredentials(c)
      && me in st.customers.rows
      && st.customers.rows[me].id == c.id
      && st.customers.rows[me].email == c.email
    ensures r.Err? ==>
      r.error.kind == (
        if !CustomerHasCredentials(c) then InvalidUser
        else if me !in st.customers.rows then NullDereference
        else IllegalChange)
  {
    var _ :- CheckCustomerIsValid(c);
    match CustomerService.FindCurrentCustomer(st, me)
    case None => Err(NoCurrentCustomer)
    case Some(original) =>
      if original.id != c.id then Err(Error(IllegalChange, CustomerIdMismatch))
      else if original.email != c.email then Err(Error(IllegalChange, EmailChange(original.email, c.email)))
      else Ok(())
  }

  /** `checkIfCouponInStack`: a coupon can be bought only while its amount is positive. Called
      after the coupon was found. */
  function CheckCouponInStock(st: Store, couponId: int): (r: Check)
    requires couponId in st.coupons.rows
    ensures r.Ok? <==> st.coupons.rows[couponId].amount > 0
    ensures r.Err? ==> r.error == Error(IllegalCoupon, OutOfStock(st.coupons.rows[couponId].title))
  {
    var coupon := CustomerService.FindCouponById(st, couponId).value;
    if coupon.amount <= 0 then Err(Error(IllegalCoupon, OutOfStock(coupon.title))) else Ok(())
  }

  /** `checkIfCouponPurchased`: the scan over the bound customer's coupons stops at one with the
      given id. Called after the coupon was found; the message names the title of the coupon under
      that key, which in a valid store is the coupon the scan stopped at. */
  function CheckCouponPurchased(st: Store, me: int, couponId: int): (r: Check)
    requires couponId in st.coupons.rows
    ensures r.Ok? <==> forall c | c in CouponsOfCustomer(st, me) :: c.id != couponId
    ensures r.Err? ==> r.error == Error(IllegalCoupon, AlreadyPurchased(st.coupons.rows[couponId].title))
  {
    if exists c | c in CustomerService.FindCustomerCoupons(st, me) :: c.id == couponId then
      Err(Error(IllegalCoupon, AlreadyPurchased(st.coupons.rows[couponId].title)))
    else Ok(())
  }

  // ------------------------------------------------------------------------------------------
  // Endpoints

  /** `getCurrentCustomer`. */
  function GetCurrentCustomer(st: Store, me: int): (r: Outcome)
    ensures r.Ok? <==> me in st.customers.rows
    ensures r.Err? ==> r.error == Error(NoCustomerFound, CurrentCustomerNotFound)
    ensures r.Ok? ==> r.value == Effect(st, OneCustomer(st.customers.rows[me]))
  {
    var _ :- CheckCustomerExists(st, me);
    Ok(Effect(st, OneCustomer(CustomerService.FindCurrentCustomer(st, me).value)))
  }

  /** `updateCustomer`: the bound customer may change anything but its id and its email. */
  function UpdateCustomer(st: Store, me: int, c: Customer): (r: Outcome)
    ensures r.Ok? <==> CheckCustomerValidToUpdate(st, me, c).Ok?
    ensures r.Err? ==> r.error == CheckCustomerValidToUpdate(st, me, c).error
    ensures r.Ok? && st.customers.rows[me].id == me ==>
      && c.id == me
      && Replaced(st.customers, r.value.store.customers, me, c)
      && r.value.store == st.(customers := r.value.store.customers)
      && r.value.payload == OneCustomer(c)
  {
    var _ :- CheckCustomerValidToUpdate(st, me, c);
    Ok(Effect(SaveCustomer(st, c).0, OneCustomer(SaveCustomer(st, c).1)))
  }

  /** `findCustomerCoupons`: the coupons the bound customer holds, or 204. */
  function FindCustomerCoupons(st: Store, me: int): (r: Outcome)
    ensures r.Ok? && r.value.store == st
    ensures r.value.payload == NoContent <==> forall k | k in st.coupons.rows :: Holding(me, k) !in st.holdings
    ensures r.value.payload != NoContent ==>
      r.value.payload.Coupons? && r.value.payload.coupons == CouponsOfCustomer(st, me)
  {
    Ok(Effect(st, CouponList(CustomerService.FindCustomerCoupons(st, me))))
  }

  /** `purchaseCoupon`: the coupon must exist, then be in stock, then not be held already; the
      purchase then adds the hold and takes one off the amount, together. */
  function PurchaseCoupon(st: Store, me: int, couponId: int): (r: Outcome)
    ensures couponId !in st.coupons.rows ==> r == Err(Error(NoCouponFound, CouponNotFound))
    ensures couponId in st.coupons.rows && st.coupons.rows[couponId].amount <= 0 ==>
      r == Err(Error(IllegalCoupon, OutOfStock(st.coupons.rows[couponId].title)))
    ensures r.Ok? <==>
      couponId in st.coupons.rows && st.coupons.rows[couponId].amount > 0 && !Holds(st, me, couponId)
    ensures r.Err? && couponId in st.coupons.rows && st.coupons.rows[couponId].amount > 0 ==>
      r.error == Error(IllegalCoupon, AlreadyPurchased(st.coupons.rows[couponId].title))
    ensures r.Ok? && me in st.customers.rows ==>
      var bought := st.coupons.rows[couponId].(amount := st.coupons.rows[couponId].amount - 1);
      && r.value.payload == OneCoupon(bought)
      && r.value.store.coupons == st.coupons.(rows := st.coupons.rows[couponId := bought])
      && r.value.store.holdings == st.holdings + {Holding(me, couponId)}
      && r.value.store.customers == st.customers && r.value.store.companies == st.companies
    ensures r.Ok? && me !in st.customers.rows ==> r.value == Effect(st, Nothing)
  {
    var _ :- CheckCouponExists(st, couponId);
    var _ :- CheckCouponInStock(st, couponId);
    var _ :- CheckCouponPurchased(st, me, couponId);
    var p := CustomerService.PurchaseCoupon(st, me, couponId);
    Ok(Effect(p.0, match p.1 case Some(c) => OneCoupon(c) case None => Nothing))
  }

  /** `findAllCoupons`: a customer browses every coupon, or gets 204. */
  function FindAllCoupons(st: Store): (r: Outcome)
    ensures r.Ok? && r.value.store == st
    ensures r.value.payload == NoContent <==> st.coupons.rows == map[]
    ensures r.value.payload != NoContent ==> r.value.payload == Coupons(st.coupons.rows.Values)
  {
    Ok(Effect(st, CouponList(st.coupons.rows.Values)))
  }

  /** `findCouponById`. */
  function FindCouponById(st: Store, id: int): (r: Outcome)
    ensures r.Ok? <==> id in st.coupons.rows
    ensures r.Err? ==> r.error == Error(NoCouponFound, CouponNotFound)
    ensures r.Ok? ==> r.value == Effect(st, OneCoupon(st.coupons.rows[id]))
  {
    var _ :- CheckCouponExists(st, id);
    Ok(Effect(st, OneCoupon(CustomerService.FindCouponById(st, id).value)))
  }
}
