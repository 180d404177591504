/** `CouponSystem.login`: checks the credentials for the requested user type and returns a new
    session bound to the matching service, stamped with the login time. */
module CouponSystem {
  import opened Common
  import opened Errors
  import opened Entities
  import opened Repository
  import opened Sessions

  /** The hard-coded admin credentials. */
  const AdminEmail := "admin"
  const AdminPassword := "1234"

  /** A non-empty set of keys has an element (stated so that the verifier can pick one). */
  lemma Inhabited(s: set<int>)
    ensures s != {} ==> exists a :: a in s
  {
    if forall a :: a !in s {
      assert s == {};
    }
  }

  /** A set whose elements are all equal has at most one element. */
  lemma AtMostOne(s: set<int>)
    requires forall a, b | a in s && b in s :: a == b
    ensures |s| <= 1
    ensures s != {} ==> exists x :: s == {x}
  {
    Inhabited(s);
    if s != {} {
      var a :| a in s;
      assert forall x :: x in s <==> x in {a};
      assert s == {a};
      assert |s| == 1;
    }
  }

  lemma SingletonShape(s: set<int>)
    requires |s| == 1
    ensures exists x :: s == {x}
  {
    assert s != {};
    Inhabited(s);
    var a :| a in s;
    assert |s - {a}| == 0;
    assert s == {a};
  }

  /** The one element of a singleton. */
  function TheOnly(s: set<int>): (x: int)
    requires |s| == 1
    ensures s == {x}
  {
    SingletonShape(s);
    var x :| x in s;
    x
  }

  function CompanyMatches(st: Store, email: string, password: string): set<int> {
    set k | k in st.companies.rows
      && st.companies.rows[k].email == Some(email) && st.companies.rows[k].password == Some(password)
  }

  function CustomerMatches(st: Store, email: string, password: string): set<int> {
    set k | k in st.customers.rows
      && st.customers.rows[k].email == Some(email) && st.customers.rows[k].password == Some(password)
  }

  /** A single-result repository query: no row is `null`, one row is that row's key, and more
      than one row makes Spring Data throw. */
  function SingleResult(matches: set<int>): (r: Result<Option<int>, Error>)
    ensures r == Ok(None) <==> matches == {}
    ensures r.Ok? && r.value.Some? ==> matches == {r.value.value}
    ensures r.Err? <==> |matches| > 1
  {
    if matches == {} then Ok(None)
    else if |matches| == 1 then Ok(Some(TheOnly(matches)))
    else Err(Error(NonUniqueResult, "query did not return a unique result"))
  }

  /** Emails are unique in a valid store, so a credentials query matches at most one row. */
  lemma ValidMatchesAtMostOne(st: Store, email: string, password: string)
    ensures Valid(st) ==> |CompanyMatches(st, email, password)| <= 1
    ensures Valid(st) ==> |CustomerMatches(st, email, password)| <= 1
  {
    if Valid(st) {
      AtMostOne(CompanyMatches(st, email, password));
      AtMostOne(CustomerMatches(st, email, password));
    }
  }

  lemma MatchesNonEmpty(st: Store, email: string, password: string)
    ensures CompanyMatches(st, email, password) != {} <==>
      exists k :: k in st.companies.rows
        && st.companies.rows[k].email == Some(email) && st.companies.rows[k].password == Some(password)
    ensures CustomerMatches(st, email, password) != {} <==>
      exists k :: k in st.customers.rows
        && st.customers.rows[k].email == Some(email) && st.customers.rows[k].password == Some(password)
  {
    var m := CompanyMatches(st, email, password);
    Inhabited(m);
    if m != {} {
      var k :| k in m;
      assert k in st.companies.rows;
    }
    if exists k :: k in st.companies.rows
        && st.companies.rows[k].email == Some(email) && st.companies.rows[k].password == Some(password) {
      var k :| k in st.companies.rows
        && st.companies.rows[k].email == Some(email) && st.companies.rows[k].password == Some(password);
      assert k in m;
    }
    var n := CustomerMatches(st, email, password);
    Inhabited(n);
    if n != {} {
      var k :| k in n;
      assert k in st.customers.rows;
    }
    if exists k :: k in st.customers.rows
        && st.customers.rows[k].email == Some(email) && st.customers.rows[k].password == Some(password) {
      var k :| k in st.customers.rows
        && st.customers.rows[k].email == Some(email) && st.customers.rows[k].password == Some(password);
      assert k in n;
    }
  }

  function AdminLogin(email: string, password: string, now: Millis): (r: Result<Session, Error>)
    ensures r.Ok? <==> email == AdminEmail && password == AdminPassword
    ensures r.Ok? ==> r.value == Session(AdminService, now)
    ensures r.Err? ==> r.error == Error(InvalidLogin, BadCredentials)
  {
    if email == AdminEmail && password == AdminPassword then Ok(Session(AdminService, now))
    else Err(Error(InvalidLogin, BadCredentials))
  }

  function CompanyLogin(st: Store, email: string, password: string, now: Millis): (r: Result<Session, Error>)
    ensures r.Ok? ==> r.value.service.CompanyService? && r.value.service.companyId in CompanyMatches(st, email, password)
    ensures r.Ok? ==> r.value.lastAccessedMillis == now
    ensures |CompanyMatches(st, email, password)| <= 1 ==>
      (r.Ok? <==> CompanyMatches(st, email, password) != {}) && (r.Err? ==> r.error == Error(InvalidLogin, BadCredentials))
  {
    match SingleResult(CompanyMatches(st, email, password))
    case Err(e) => Err(e)
    case Ok(None) => Err(Error(InvalidLogin, BadCredentials))
    case Ok(Some(id)) => Ok(Session(CompanyService(id), now))
  }

  function CustomerLogin(st: Store, email: string, password: string, now: Millis): (r: Result<Session, Error>)
    ensures r.Ok? ==> r.value.service.CustomerService? && r.value.service.customerId in CustomerMatches(st, email, password)
    ensures r.Ok? ==> r.value.lastAccessedMillis == now
    ensures |CustomerMatches(st, email, password)| <= 1 ==>
      (r.Ok? <==> CustomerMatches(st, email, password) != {}) && (r.Err? ==> r.error == Error(InvalidLogin, BadCredentials))
  {
    match SingleResult(CustomerMatches(st, email, password))
    case Err(e) => Err(e)
    case Ok(None) => Err(Error(InvalidLogin, BadCredentials))
    case Ok(Some(id)) => Ok(Session(CustomerService(id), now))
  }

  /** Dispatch on the user type. Admin: the fixed pair. Company and customer: a row matching both
      email and password, whose id the service is bound to. Every session starts stamped with the
      login time; every rejection is InvalidLogin with one message, whatever was wrong. */
  function Login(st: Store, email: string, password: string, kind: string, now: Millis): (r: Result<Session, Error>)
    ensures r.Ok? ==> r.value.lastAccessedMillis == now
    ensures kind != "admin" && kind != "company" && kind != "customer" ==>
      r == Err(Error(InvalidLogin, BadCredentials))
    ensures kind == "admin" ==>
      (r.Ok? <==> email == AdminEmail && password == AdminPassword) && (r.Ok? ==> r.value.service == AdminService)
    ensures kind == "company" && Valid(st) ==>
      && (r.Ok? <==> (exists k :: k in st.companies.rows
                        && st.companies.rows[k].email == Some(email) && st.companies.rows[k].password == Some(password)))
      && (r.Ok? ==> (r.value.service.CompanyService?
                     && var k := r.value.service.companyId;
                     && k in st.companies.rows
                     && st.companies.rows[k].email == Some(email) && st.companies.rows[k].password == Some(password)))
    ensures kind == "customer" && Valid(st) ==>
      && (r.Ok? <==> (exists k :: k in st.customers.rows
                        && st.customers.rows[k].email == Some(email) && st.customers.rows[k].password == Some(password)))
      && (r.Ok? ==> (r.value.service.CustomerService?
                     && var k := r.value.service.customerId;
                     && k in st.customers.rows
                     && st.customers.rows[k].email == Some(email) && st.customers.rows[k].password == Some(password)))
    ensures Valid(st) && r.Err? ==> r.error == Error(InvalidLogin, BadCredentials)
  {
    ValidMatchesAtMostOne(st, email, password);
    MatchesNonEmpty(st, email, password);
    match kind
    case "admin" => AdminLogin(email, password, now)
    case "company" => CompanyLogin(st, email, password, now)
    case "customer" => CustomerLogin(st, email, password, now)
    case _ => Err(Error(InvalidLogin, BadCredentials))
  }
}
