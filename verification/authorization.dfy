/** What a session may touch, whatever it sends: a company session writes only its own row and
    its own coupons, a customer session only its own row, its own holds and coupon amounts. And
    the purchase rules, end to end. */
module Authorization {
  import opened Common
  import opened Errors
  import opened Entities
  import opened Repository
  import opened Responses
  import opened Messages
  import opened Sessions
  import opened Endpoints
  import CustomerController

  /** A company session cannot change another company, another company's coupons, any customer
      or any hold; the coupons it owns stay where they are. */
  lemma CompanySessionConfined(w: World, now: int, token: Token, me: int, call: CompanyCall)
    requires Valid(w.store)
    requires token in w.registry && w.registry[token].service == CompanyService(me)
    ensures var st' := Handle(w, now, token, AsCompany(call)).world.store;
      && st'.customers == w.store.customers
      && st'.holdings == w.store.holdings
      && (forall k | k in w.store.companies.rows && k != me ::
            k in st'.companies.rows && st'.companies.rows[k] == w.store.companies.rows[k])
      && (forall k | k in w.store.coupons.rows && w.store.coupons.rows[k].company != Some(me) ::
            k in st'.coupons.rows && st'.coupons.rows[k] == w.store.coupons.rows[k])
      && w.store.coupons.rows.Keys <= st'.coupons.rows.Keys
  {
    var st := w.store;
    match call {
      case UpdateOwnCoupon(c) =>
        var r := CompanyController.UpdateCoupon(st, me, c);
        if r.Ok? {
          assert st.companies.rows[me].id == me;
          assert st.coupons.rows[c.id].company == Some(me);
        }
      case AddOwnCoupon(c) =>
        var r := CompanyController.AddCoupon(st, me, c);
        if r.Ok? && me in st.companies.rows {
          assert KeysIssued(st.coupons);
        }
      case UpdateCurrentCompany(c) =>
        var r := CompanyController.UpdateCompany(st, me, c);
        if r.Ok? {
          assert st.companies.rows[me].id == me;
        }
      case _ =>
    }
  }

  /** A customer session cannot change any company, any other customer, any other customer's
      holds, or any coupon field but the amount; it never removes a hold or a coupon. */
  lemma CustomerSessionConfined(w: World, now: int, token: Token, me: int, call: CustomerCall)
    requires Valid(w.store)
    requires token in w.registry && w.registry[token].service == CustomerService(me)
    ensures var st' := Handle(w, now, token, AsCustomer(call)).world.store;
      && st'.companies == w.store.companies
      && (forall k | k in w.store.customers.rows && k != me ::
            k in st'.customers.rows && st'.customers.rows[k] == w.store.customers.rows[k])
      && st'.coupons.rows.Keys == w.store.coupons.rows.Keys
      && (forall k | k in w.store.coupons.rows ::
            st'.coupons.rows[k] == w.store.coupons.rows[k].(amount := st'.coupons.rows[k].amount))
      && w.store.holdings <= st'.holdings
      && (forall h | h in st'.holdings && h.customer != me :: h in w.store.holdings)
  {
    var st := w.store;
    match call {
      case UpdateCurrentCustomer(c) =>
        var r := CustomerController.UpdateCustomer(st, me, c);
        if r.Ok? {
          assert st.customers.rows[me].id == me;
        }
      case _ =>
    }
  }

  /** Buying a coupon twice: the second attempt fails and changes nothing, and the amount went
      down by exactly one across both. Stock is checked before duplicates, so when the first
      purchase took the last unit the second fails as out of stock rather than as a duplicate. */
  lemma PurchaseTwice(w: World, t1: int, t2: int, token: Token, me: int, couponId: int)
    requires Valid(w.store)
    requires token in w.registry && w.registry[token].service == CustomerService(me)
    requires me in w.store.customers.rows && couponId in w.store.coupons.rows
    requires w.store.coupons.rows[couponId].amount > 0
    requires forall k | k in w.store.coupons.rows :: Holding(me, k) !in w.store.holdings
    ensures var first := Handle(w, t1, token, AsCustomer(Purchase(couponId)));
      var second := Handle(first.world, t2, token, AsCustomer(Purchase(couponId)));
      var title := w.store.coupons.rows[couponId].title;
      && first.result.Ok?
      && second.result == Err(Error(IllegalCoupon,
           if w.store.coupons.rows[couponId].amount > 1 then AlreadyPurchased(title) else OutOfStock(title)))
      && second.world.store == first.world.store
      && second.world.store.coupons.rows[couponId].amount == w.store.coupons.rows[couponId].amount - 1
      && Holding(me, couponId) in second.world.store.holdings
  {
    var st := w.store;
    var r1 := CustomerController.PurchaseCoupon(st, me, couponId);
    assert !CustomerController.Holds(st, me, couponId);
    assert r1.Ok?;
    var st1 := r1.value.store;
    var first := Handle(w, t1, token, AsCustomer(Purchase(couponId)));
    assert first.world.store == st1;
    assert first.world.registry[token].service == CustomerService(me);
    assert st1.coupons.rows[couponId].amount == st.coupons.rows[couponId].amount - 1;
    assert st1.coupons.rows[couponId].title == st.coupons.rows[couponId].title;
    assert st1.coupons.rows[couponId].id == couponId;
    assert Holding(me, couponId) in st1.holdings;
    assert CustomerController.Holds(st1, me, couponId);
    var r2 := CustomerController.PurchaseCoupon(st1, me, couponId);
    assert r2.Err?;
  }

  /** A coupon out of stock cannot be bought, and the attempt changes nothing in the store. */
  lemma PurchaseOutOfStock(w: World, now: int, token: Token, me: int, couponId: int)
    requires token in w.registry && w.registry[token].service == CustomerService(me)
    requires couponId in w.store.coupons.rows && w.store.coupons.rows[couponId].amount <= 0
    ensures var r := Handle(w, now, token, AsCustomer(Purchase(couponId)));
      && r.result == Err(Error(IllegalCoupon, OutOfStock(w.store.coupons.rows[couponId].title)))
      && r.world.store == w.store
  {
  }

  /** A company cannot update a coupon another company owns, even keeping its title. */
  lemma ForeignCouponUpdateRefused(w: World, now: int, token: Token, me: int, c: Coupon)
    requires Valid(w.store)
    requires token in w.registry && w.registry[token].service == CompanyService(me)
    requires me in w.store.companies.rows && CouponComplete(c)
    requires c.id in w.store.coupons.rows && w.store.coupons.rows[c.id].company != Some(me)
    ensures var r := Handle(w, now, token, AsCompany(UpdateOwnCoupon(c)));
      r.result == Err(Error(IllegalChange, CouponNotOwned)) && r.world.store == w.store
  {
  }

  /** The administrator cannot change a customer's email. */
  lemma CustomerEmailFixed(w: World, now: int, token: Token, c: Customer)
    requires token in w.registry && w.registry[token].service == AdminService
    requires CustomerHasCredentials(c) && c.id in w.store.customers.rows
    requires w.store.customers.rows[c.id].email != c.email
    ensures var r := Handle(w, now, token, AsAdmin(UpdateCustomer(c)));
      && r.result == Err(Error(IllegalChange, CustomerEmailChange(w.store.customers.rows[c.id].email, c.email)))
      && r.world.store == w.store
  {
  }
}
