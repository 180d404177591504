/** The persistence layer as the core sees it: three tables with identity keys and the
    customer_coupon join table, the repository queries the core calls, and the deletions with
    their cascades. */
module Repository {
  import opened Common
  import opened Entities

  /** A table with an identity primary key: its rows by key and the next key the column issues. */
  datatype Table<T> = Table(rows: map<int, T>, nextId: int)

  /** Every key was issued by the identity column: positive and below its counter. */
  predicate KeysIssued<T>(t: Table<T>) {
    && 1 <= t.nextId
    && forall k | k in t.rows :: 1 <= k < t.nextId
  }

  /** `findById(id).orElse(null)`. */
  function Find<T>(t: Table<T>, id: int): (r: Option<T>)
    ensures r.Some? <==> id in t.rows
    ensures r.Some? ==> r.value == t.rows[id]
  {
    if id in t.rows then Some(t.rows[id]) else None
  }

  /** Spring Data's `save`. An entity whose id names a row replaces that row; any other entity
      (id 0, or an id without a row, which a JPA merge also inserts) becomes a new row under the
      identity column's next key. Returns the table and the entity as saved. */
  function Save<T>(t: Table<T>, id: int, row: T, withId: (T, int) -> T): (r: (Table<T>, T))
    ensures KeysIssued(t) ==> KeysIssued(r.0) && t.rows.Keys <= r.0.rows.Keys
    ensures id in t.rows ==> r.0 == t.(rows := t.rows[id := row]) && r.1 == row
    ensures id !in t.rows ==>
      && r.1 == withId(row, t.nextId)
      && r.0 == Table(t.rows[t.nextId := r.1], t.nextId + 1)
      && (KeysIssued(t) ==> t.nextId !in t.rows)
  {
    if id in t.rows then (t.(rows := t.rows[id := row]), row)
    else
      var saved := withId(row, t.nextId);
      (Table(t.rows[t.nextId := saved], t.nextId + 1), saved)
  }

  datatype Store = Store(
    companies: Table<Company>,
    customers: Table<Customer>,
    coupons: Table<Coupon>,
    holdings: set<Holding>)

  /** A freshly created schema. */
  const Empty: Store := Store(Table(map[], 1), Table(map[], 1), Table(map[], 1), {})

  // ------------------------------------------------------------------------------------------
  // The invariant every reachable store satisfies

  predicate CompaniesValid(st: Store) {
    var rows := st.companies.rows;
    && KeysIssued(st.companies)
    && (forall k | k in rows :: rows[k].id == k && CompanyHasCredentials(rows[k]))
    && (forall j, k | j in rows && k in rows && rows[j].email == rows[k].email :: j == k)
  }

  predicate CustomersValid(st: Store) {
    var rows := st.customers.rows;
    && KeysIssued(st.customers)
    && (forall k | k in rows :: rows[k].id == k && CustomerHasCredentials(rows[k]))
    && (forall j, k | j in rows && k in rows && rows[j].email == rows[k].email :: j == k)
  }

  predicate CouponsValid(st: Store) {
    var rows := st.coupons.rows;
    && KeysIssued(st.coupons)
    && (forall k | k in rows :: rows[k].id == k && CouponComplete(rows[k]))
    && (forall k | k in rows :: rows[k].company.Some? && rows[k].company.value in st.companies.rows)
    && (forall j, k | j in rows && k in rows && rows[j].title == rows[k].title :: j == k)
  }

  predicate HoldingsValid(st: Store) {
    forall h | h in st.holdings :: h.customer in st.customers.rows && h.coupon in st.coupons.rows
  }

  /** Keys issued by the identity columns, rows stored under their own id with the fields the
      gate demands, every coupon owned by a live company, every holding between live rows, and
      emails (per table) and coupon titles unique. */
  predicate Valid(st: Store) {
    CompaniesValid(st) && CustomersValid(st) && CouponsValid(st) && HoldingsValid(st)
  }

  lemma EmptyValid()
    ensures Valid(Empty)
  {
  }

  // ------------------------------------------------------------------------------------------
  // Repository queries

  /** `findAllCouponsByCompanyId`. */
  function CouponsOfCompany(st: Store, companyId: int): set<Coupon> {
    set k | k in st.coupons.rows && st.coupons.rows[k].company == Some(companyId) :: st.coupons.rows[k]
  }

  /** `findAllCouponsByCustomerId`: the coupons joined to the customer through customer_coupon. */
  function CouponsOfCustomer(st: Store, customerId: int): set<Coupon> {
    set k | k in st.coupons.rows && Holding(customerId, k) in st.holdings :: st.coupons.rows[k]
  }

  /** `findAllByEndDateBefore(now)`: keys of the coupons whose end date is strictly before `now`
      (a coupon without an end date compares as SQL NULL and is never selected). */
  function ExpiredCoupons(st: Store, now: Millis): set<int> {
    set k | k in st.coupons.rows && st.coupons.rows[k].endDate.Some? && st.coupons.rows[k].endDate.value < now
  }

  // ------------------------------------------------------------------------------------------
  // How a save changes a table

  /** A new row went in under a key the table did not hold; every other row is as it was. */
  predicate Inserted<T(==)>(before: Table<T>, after: Table<T>, key: int, row: T) {
    key !in before.rows && after.rows == before.rows[key := row]
  }

  /** The row under an existing key was replaced; no key was issued or removed. */
  predicate Replaced<T(==)>(before: Table<T>, after: Table<T>, key: int, row: T) {
    key in before.rows && after == before.(rows := before.rows[key := row])
  }

  // ------------------------------------------------------------------------------------------
  // Saves

  function SaveCompany(st: Store, c: Company): (r: (Store, Company)) {
    var p := Save(st.companies, c.id, c, (x: Company, i: int) => x.(id := i));
    (st.(companies := p.0), p.1)
  }

  function SaveCustomer(st: Store, c: Customer): (r: (Store, Customer)) {
    var p := Save(st.customers, c.id, c, (x: Customer, i: int) => x.(id := i));
    (st.(customers := p.0), p.1)
  }

  function SaveCoupon(st: Store, c: Coupon): (r: (Store, Coupon)) {
    var p := Save(st.coupons, c.id, c, (x: Coupon, i: int) => x.(id := i));
    (st.(coupons := p.0), p.1)
  }

  // ------------------------------------------------------------------------------------------
  // Deletions

  /** `customerRepository.deleteById`: the customer row and its customer_coupon rows go. */
  function DeleteCustomer(st: Store, id: int): (r: Store)
    ensures r.customers.rows.Keys == st.customers.rows.Keys - {id}
    ensures forall k | k in r.customers.rows :: r.customers.rows[k] == st.customers.rows[k]
    ensures r.companies == st.companies && r.coupons == st.coupons
    ensures forall h :: h in r.holdings <==> h in st.holdings && h.customer != id
  {
    st.(customers := st.customers.(rows := st.customers.rows - {id}),
        holdings := set h | h in st.holdings && h.customer != id)
  }

  /** `couponRepository.deleteAll` / `deleteById`: the coupon rows with the given keys go, and so
      do their customer_coupon rows. */
  function DeleteCoupons(st: Store, ids: set<int>): (r: Store)
    ensures r.coupons.rows.Keys == st.coupons.rows.Keys - ids
    ensures forall k | k in r.coupons.rows :: r.coupons.rows[k] == st.coupons.rows[k]
    ensures r.companies == st.companies && r.customers == st.customers
    ensures forall h :: h in r.holdings <==> h in st.holdings && h.coupon !in ids
  {
    st.(coupons := st.coupons.(rows := st.coupons.rows - ids),
        holdings := set h | h in st.holdings && h.coupon !in ids)
  }

  /** `companyRepository.deleteById`: the company's coupons relation cascades ALL, so the
      company's coupons (and their customer_coupon rows) go with it. */
  function DeleteCompany(st: Store, id: int): (r: Store)
    ensures r.companies.rows.Keys == st.companies.rows.Keys - {id}
    ensures forall k | k in r.companies.rows :: r.companies.rows[k] == st.companies.rows[k]
    ensures forall k :: k in r.coupons.rows <==> k in st.coupons.rows && st.coupons.rows[k].company != Some(id)
    ensures forall k | k in r.coupons.rows :: r.coupons.rows[k] == st.coupons.rows[k]
    ensures CouponsOfCompany(r, id) == {}
    ensures r.customers == st.customers
    ensures forall h :: h in r.holdings <==>
      h in st.holdings && !(h.coupon in st.coupons.rows && st.coupons.rows[h.coupon].company == Some(id))
  {
    var owned := set k | k in st.coupons.rows && st.coupons.rows[k].company == Some(id);
    var rest := DeleteCoupons(st, owned);
    rest.(companies := rest.companies.(rows := rest.companies.rows - {id}))
  }

  // ------------------------------------------------------------------------------------------
  // The deletions keep the store valid

  lemma DeleteCustomerValid(st: Store, id: int)
    requires Valid(st)
    ensures Valid(DeleteCustomer(st, id))
  {
  }

  lemma DeleteCouponsValid(st: Store, ids: set<int>)
    requires Valid(st)
    ensures Valid(DeleteCoupons(st, ids))
  {
  }

  lemma DeleteCompanyValid(st: Store, id: int)
    requires Valid(st)
    ensures Valid(DeleteCompany(st, id))
  {
  }
}
