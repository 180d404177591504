/** The persistent entities, with the fields the business rules read. Java references that may be
    `null` are `Option`s; names, descriptions, prices, categories and images take part in no rule
    and are left out. */
module Entities {
  import opened Common

  /** Java's 32-bit `int`, the type of `Coupon.amount`. */
  newtype Int32 = x: int | -0x8000_0000 <= x < 0x8000_0000

  const IntMin: Int32 := -0x8000_0000
  const IntMax: Int32 := 0x7fff_ffff

  /** Two's-complement reduction of an unbounded integer into the 32-bit range. */
  function Wrap32(x: int): int {
    (x + 0x8000_0000) % 0x1_0000_0000 - 0x8000_0000
  }

  /** `amount - 1` evaluated in Java `int` arithmetic. */
  function Decrement(a: Int32): (r: Int32)
    ensures r as int == Wrap32(a as int - 1)
    ensures a > IntMin ==> r < a
  {
    if a == IntMin then IntMax else a - 1
  }

  /** Milliseconds since the epoch (`System.currentTimeMillis`, `java.sql.Date`). */
  type Millis = int

  datatype Company = Company(id: int, email: Option<string>, password: Option<string>)

  datatype Customer = Customer(id: int, email: Option<string>, password: Option<string>)

  /** `company` is the id of the company the coupon's single owner reference points at. */
  datatype Coupon = Coupon(
    id: int,
    title: Option<string>,
    endDate: Option<Millis>,
    amount: Int32,
    company: Option<int>)

  /** The fields `checkIfCompanyIsValid` demands: an email and a password. */
  predicate CompanyHasCredentials(c: Company) {
    c.email.Some? && c.password.Some?
  }

  /** The fields `checkIfCustomerIsValid` demands: an email and a password. */
  predicate CustomerHasCredentials(c: Customer) {
    c.email.Some? && c.password.Some?
  }

  /** The fields `checkIfCouponIsValid` demands: a title and an end date. */
  predicate CouponComplete(c: Coupon) {
    c.title.Some? && c.endDate.Some?
  }

  /** A row of the customer_coupon join table: the customer holds the coupon. */
  datatype Holding = Holding(customer: int, coupon: int)

  /** `coupon.setCompany(company)` as the services perform it: the coupon's one owner reference
      now points at `companyId`, and nothing else about the coupon changes. */
  function Adopt(c: Coupon, companyId: int): (r: Coupon)
    ensures r.company == Some(companyId)
    ensures r.(company := c.company) == c
  {
    c.(company := Some(companyId))
  }

  // ------------------------------------------------------------------------------------------
  // The in-memory association lists. The store keeps ownership in `Coupon.company` and purchases
  // in the join table; these lists are what the entity objects carry besides.

  /** A Company object with its `coupons` list. */
  datatype CompanyObject = CompanyObject(company: Company, coupons: seq<Coupon>)

  /** A Coupon object with its `customers` list. */
  datatype CouponObject = CouponObject(coupon: Coupon, customers: seq<Customer>)

  /** `new Company()`: no coupons yet. */
  function NewCompany(c: Company): (r: CompanyObject)
    ensures r.company == c && |r.coupons| == 0
  {
    CompanyObject(c, [])
  }

  /** `new Coupon()`: no customers yet. */
  function NewCoupon(c: Coupon): (r: CouponObject)
    ensures r.coupon == c && |r.customers| == 0
  {
    CouponObject(c, [])
  }

  /** `Company.add(coupon)`: the coupon now points at this company and is appended to its list;
      the coupons already listed stay as they were. */
  function AddCoupon(o: CompanyObject, c: Coupon): (r: CompanyObject)
    ensures r.company == o.company
    ensures |r.coupons| == |o.coupons| + 1
    ensures r.coupons[..|o.coupons|] == o.coupons
    ensures r.coupons[|o.coupons|].company == Some(o.company.id)
    ensures r.coupons[|o.coupons|].(company := c.company) == c
  {
    CompanyObject(o.company, o.coupons + [Adopt(c, o.company.id)])
  }

  /** `Coupon.addCustomer(customer)`: appends exactly that customer. */
  function AddCustomer(o: CouponObject, c: Customer): (r: CouponObject)
    ensures r.coupon == o.coupon
    ensures |r.customers| == |o.customers| + 1
    ensures r.customers[..|o.customers|] == o.customers && r.customers[|o.customers|] == c
  {
    CouponObject(o.coupon, o.customers + [c])
  }

  /** Every coupon a company object lists points back at that company. */
  predicate OwnsAll(o: CompanyObject) {
    forall i | 0 <= i < |o.coupons| :: o.coupons[i].company == Some(o.company.id)
  }

  /** `add` called for each coupon of `cs` in turn. */
  function AddCoupons(o: CompanyObject, cs: seq<Coupon>): CompanyObject
    decreases |cs|
  {
    if cs == [] then o else AddCoupons(AddCoupon(o, cs[0]), cs[1..])
  }

  /** Adding coupons one by one lists them in call order, each adopted by the company, and keeps
      every listed coupon owned by it: the list agrees with the `Coupon.company` references. */
  lemma {:induction false} AddCouponsOwned(o: CompanyObject, cs: seq<Coupon>)
    requires OwnsAll(o)
    ensures var r := AddCoupons(o, cs);
      && r.company == o.company
      && |r.coupons| == |o.coupons| + |cs|
      && r.coupons[..|o.coupons|] == o.coupons
      && (forall i | 0 <= i < |cs| :: r.coupons[|o.coupons| + i] == Adopt(cs[i], o.company.id))
      && OwnsAll(r)
    decreases |cs|
  {
    if cs != [] {
      var o1 := AddCoupon(o, cs[0]);
      assert OwnsAll(o1);
      AddCouponsOwned(o1, cs[1..]);
      var r := AddCoupons(o1, cs[1..]);
      assert r.coupons[..|o.coupons|] == o1.coupons[..|o.coupons|];
      forall i | 0 <= i < |cs| ensures r.coupons[|o.coupons| + i] == Adopt(cs[i], o.company.id) {
        if i == 0 {
          assert r.coupons[|o.coupons|] == o1.coupons[|o.coupons|];
        } else {
          assert r.coupons[|o1.coupons| + (i - 1)] == Adopt(cs[1..][i - 1], o.company.id);
        }
      }
    }
  }

  /** `addCustomer` called for each customer of `cs` in turn. */
  function AddCustomers(o: CouponObject, cs: seq<Customer>): CouponObject
    decreases |cs|
  {
    if cs == [] then o else AddCustomers(AddCustomer(o, cs[0]), cs[1..])
  }

  /** Adding customers one by one appends exactly them, in call order. */
  lemma {:induction false} AddCustomersAppends(o: CouponObject, cs: seq<Customer>)
    ensures AddCustomers(o, cs) == CouponObject(o.coupon, o.customers + cs)
    decreases |cs|
  {
    if cs != [] {
      AddCustomersAppends(AddCustomer(o, cs[0]), cs[1..]);
      assert o.customers + [cs[0]] + cs[1..] == o.customers + cs;
    }
  }
}
