/** The HTTP surface as one function: a request names its endpoint, the session registry resolves
    the token to a service of the role the endpoint's controller casts to, and the controller runs
    against the store. Everything a request changes is the registry entry of its own token and,
    when it succeeds, the store. */
module Endpoints {
  import opened Common
  import opened Errors
  import opened Entities
  import opened Repository
  import opened Responses
  import opened Sessions
  import AdminController
  import CompanyController
  import CustomerController
  import Invariants

  /** The `/admin/...` endpoints. */
  datatype AdminCall =
    | AddCustomer(customer: Customer)
    | UpdateCustomer(customer: Customer)
    | DeleteCustomer(id: int)
    | FindAllCustomers
    | FindCustomerById(id: int)
    | FindCustomerCoupons(id: int)
    | AddCompany(company: Company)
    | UpdateCompany(company: Company)
    | DeleteCompany(id: int)
    | FindAllCompanies
    | FindCompanyById(id: int)
    | FindCompanyCoupons(id: int)
    | AddCoupon(coupon: Coupon, companyId: int)
    | UpdateCoupon(coupon: Coupon, companyId: int)
    | DeleteCoupon(id: int)
    | FindAllCoupons
    | FindCouponById(id: int)
    | GetCompanyIdFromCoupon(id: int)

  /** The `/companies/...` endpoints. */
  datatype CompanyCall =
    | CurrentCompany
    | UpdateCurrentCompany(company: Company)
    | AddOwnCoupon(coupon: Coupon)
    | UpdateOwnCoupon(coupon: Coupon)
    | OwnCoupons
    | OwnCouponById(id: int)

  /** The `/customers/...` endpoints. */
  datatype CustomerCall =
    | CurrentCustomer
    | UpdateCurrentCustomer(customer: Customer)
    | PurchasedCoupons
    | Purchase(couponId: int)
    | BrowseCoupons
    | BrowseCouponById(id: int)

  datatype Request = AsAdmin(admin: AdminCall) | AsCompany(company: CompanyCall) | AsCustomer(customer: CustomerCall)

  /** The role of the service the endpoint's controller casts the session's service to. */
  function Required(req: Request): Role {
    match req
    case AsAdmin(_) => AdminRole
    case AsCompany(_) => CompanyRole
    case AsCustomer(_) => CustomerRole
  }

  datatype World = World(registry: Registry, store: Store)

  datatype Reply = Reply(world: World, result: Result<Payload, Error>)

  function ServeAdmin(st: Store, call: AdminCall): Outcome {
    match call
    case AddCustomer(c) => AdminController.AddCustomer(st, c)
    case UpdateCustomer(c) => AdminController.UpdateCustomer(st, c)
    case DeleteCustomer(id) => AdminController.DeleteCustomer(st, id)
    case FindAllCustomers => AdminController.FindAllCustomers(st)
    case FindCustomerById(id) => AdminController.FindCustomerById(st, id)
    case FindCustomerCoupons(id) => AdminController.FindCustomerCoupons(st, id)
    case AddCompany(c) => AdminController.AddCompany(st, c)
    case UpdateCompany(c) => AdminController.UpdateCompany(st, c)
    case DeleteCompany(id) => AdminController.DeleteCompany(st, id)
    case FindAllCompanies => AdminController.FindAllCompanies(st)
    case FindCompanyById(id) => AdminController.FindCompanyById(st, id)
    case FindCompanyCoupons(id) => AdminController.FindCompanyCoupons(st, id)
    case AddCoupon(c, companyId) => AdminController.AddCoupon(st, c, companyId)
    case UpdateCoupon(c, companyId) => AdminController.UpdateCoupon(st, c, companyId)
    case DeleteCoupon(id) => AdminController.DeleteCoupon(st, id)
    case FindAllCoupons => AdminController.FindAllCoupons(st)
    case FindCouponById(id) => AdminController.FindCouponById(st, id)
    case GetCompanyIdFromCoupon(id) => AdminController.GetCompanyIdFromCoupon(st, id)
  }

  function ServeCompany(st: Store, me: int, call: CompanyCall): Outcome {
    match call
    case CurrentCompany => CompanyController.GetCurrentCompany(st, me)
    case UpdateCurrentCompany(c) => CompanyController.UpdateCompany(st, me, c)
    case AddOwnCoupon(c) => CompanyController.AddCoupon(st, me, c)
    case UpdateOwnCoupon(c) => CompanyController.UpdateCoupon(st, me, c)
    case OwnCoupons => CompanyController.FindCompanyCoupons(st, me)
    case OwnCouponById(id) => CompanyController.FindCouponById(st, me, id)
  }

  function ServeCustomer(st: Store, me: int, call: CustomerCall): Outcome {
    match call
    case CurrentCustomer => CustomerController.GetCurrentCustomer(st, me)
    case UpdateCurrentCustomer(c) => CustomerController.UpdateCustomer(st, me, c)
    case PurchasedCoupons => CustomerController.FindCustomerCoupons(st, me)
    case Purchase(id) => CustomerController.PurchaseCoupon(st, me, id)
    case BrowseCoupons => CustomerController.FindAllCoupons(st)
    case BrowseCouponById(id) => CustomerController.FindCouponById(st, id)
  }

  /** Runs the request's controller with the service the session holds. */
  function Serve(st: Store, service: Service, req: Request): Outcome
    requires RoleOf(service) == Required(req)
  {
    match req
    case AsAdmin(call) => ServeAdmin(st, call)
    case AsCompany(call) => ServeCompany(st, service.companyId, call)
    case AsCustomer(call) => ServeCustomer(st, service.customerId, call)
  }

  /** One request at instant `now`, carrying `token`. */
  function Handle(w: World, now: int, token: Token, req: Request): (r: Reply)
    ensures token !in w.registry ==> r == Reply(w, Err(Error(InvalidLogin, TimedOut)))
    ensures r.world.registry.Keys == w.registry.Keys
    ensures forall t | t in w.registry && t != token :: r.world.registry[t] == w.registry[t]
    ensures token in w.registry ==> r.world.registry[token] == w.registry[token].Accessed(now)
    ensures token in w.registry && RoleOf(w.registry[token].service) != Required(req) ==>
      r.result.Err? && r.result.error.kind == WrongRole && r.world.store == w.store
    ensures r.result.Err? ==> r.world.store == w.store
  {
    var s := GetService(w.registry, token, now, Required(req));
    match s.result
    case Err(e) => Reply(World(s.registry, w.store), Err(e))
    case Ok(service) =>
      match Serve(w.store, service, req)
      case Err(e) => Reply(World(s.registry, w.store), Err(e))
      case Ok(effect) => Reply(World(s.registry, effect.store), Ok(effect.payload))
  }

  /** No request can break the store invariant. */
  lemma HandleKeepsValid(w: World, now: int, token: Token, req: Request)
    requires Valid(w.store)
    ensures Valid(Handle(w, now, token, req).world.store)
  {
    if token in w.registry && RoleOf(w.registry[token].service) == Required(req) {
      var service := w.registry[token].service;
      ServeKeepsValid(w.store, service, req);
    }
  }

  lemma ServeKeepsValid(st: Store, service: Service, req: Request)
    requires Valid(st)
    requires RoleOf(service) == Required(req)
    ensures Valid(Invariants.After(st, Serve(st, service, req)))
  {
    match req
    case AsAdmin(call) =>
      match call {
        case AddCustomer(c) => Invariants.AdminAddCustomerKeepsValid(st, c);
        case UpdateCustomer(c) => Invariants.AdminUpdateCustomerKeepsValid(st, c);
        case DeleteCustomer(id) => Invariants.AdminDeleteCustomerKeepsValid(st, id);
        case AddCompany(c) => Invariants.AdminAddCompanyKeepsValid(st, c);
        case UpdateCompany(c) => Invariants.AdminUpdateCompanyKeepsValid(st, c);
        case DeleteCompany(id) => Invariants.AdminDeleteCompanyKeepsValid(st, id);
        case AddCoupon(c, companyId) => Invariants.AdminAddCouponKeepsValid(st, c, companyId);
        case UpdateCoupon(c, companyId) => Invariants.AdminUpdateCouponKeepsValid(st, c, companyId);
        case DeleteCoupon(id) => Invariants.AdminDeleteCouponKeepsValid(st, id);
        case _ =>
      }
    case AsCompany(call) =>
      match call {
        case UpdateCurrentCompany(c) => Invariants.CompanyUpdateCompanyKeepsValid(st, service.companyId, c);
        case AddOwnCoupon(c) => Invariants.CompanyAddCouponKeepsValid(st, service.companyId, c);
        case UpdateOwnCoupon(c) => Invariants.CompanyUpdateCouponKeepsValid(st, service.companyId, c);
        case _ =>
      }
    case AsCustomer(call) =>
      match call {
        case UpdateCurrentCustomer(c) => Invariants.CustomerUpdateCustomerKeepsValid(st, service.customerId, c);
        case Purchase(id) => Invariants.CustomerPurchaseKeepsValid(st, service.customerId, id);
        case _ =>
      }
  }
}
