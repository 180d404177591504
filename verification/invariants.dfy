/** Every endpoint that writes keeps the store invariant `Valid`: the gate's checks are exactly
    what the invariant needs. */
module Invariants {
  import opened Common
  import opened Entities
  import opened Repository
  import opened Responses
  import AdminController
  import CompanyController
  import CustomerController

  /** The store an outcome leaves behind: the new one on success, the old one on failure. */
  function After(st: Store, r: Outcome): Store {
    if r.Ok? then r.value.store else st
  }

  lemma AdminAddCustomerKeepsValid(st: Store, c: Customer)
    requires Valid(st)
    ensures Valid(After(st, AdminController.AddCustomer(st, c)))
  {
  }

  lemma AdminUpdateCustomerKeepsValid(st: Store, c: Customer)
    requires Valid(st)
    ensures Valid(After(st, AdminController.UpdateCustomer(st, c)))
  {
  }

  lemma AdminDeleteCustomerKeepsValid(st: Store, id: int)
    requires Valid(st)
    ensures Valid(After(st, AdminController.DeleteCustomer(st, id)))
  {
    DeleteCustomerValid(st, id);
  }

  lemma AdminAddCompanyKeepsValid(st: Store, c: Company)
    requires Valid(st)
    ensures Valid(After(st, AdminController.AddCompany(st, c)))
  {
  }

  lemma AdminUpdateCompanyKeepsValid(st: Store, c: Company)
    requires Valid(st)
    ensures Valid(After(st, AdminController.UpdateCompany(st, c)))
  {
  }

  lemma AdminDeleteCompanyKeepsValid(st: Store, id: int)
    requires Valid(st)
    ensures Valid(After(st, AdminController.DeleteCompany(st, id)))
  {
    DeleteCompanyValid(st, id);
  }

  lemma AdminAddCouponKeepsValid(st: Store, c: Coupon, companyId: int)
    requires Valid(st)
    ensures Valid(After(st, AdminController.AddCoupon(st, c, companyId)))
  {
  }

  lemma AdminUpdateCouponKeepsValid(st: Store, c: Coupon, companyId: int)
    requires Valid(st)
    ensures Valid(After(st, AdminController.UpdateCoupon(st, c, companyId)))
  {
  }

  lemma AdminDeleteCouponKeepsValid(st: Store, id: int)
    requires Valid(st)
    ensures Valid(After(st, AdminController.DeleteCoupon(st, id)))
  {
    DeleteCouponsValid(st, {id});
  }

  lemma CompanyUpdateCompanyKeepsValid(st: Store, me: int, c: Company)
    requires Valid(st)
    ensures Valid(After(st, CompanyController.UpdateCompany(st, me, c)))
  {
  }

  lemma CompanyAddCouponKeepsValid(st: Store, me: int, c: Coupon)
    requires Valid(st)
    ensures Valid(After(st, CompanyController.AddCoupon(st, me, c)))
  {
  }

  lemma CompanyUpdateCouponKeepsValid(st: Store, me: int, c: Coupon)
    requires Valid(st)
    ensures Valid(After(st, CompanyController.UpdateCoupon(st, me, c)))
  {
  }

  lemma CustomerUpdateCustomerKeepsValid(st: Store, me: int, c: Customer)
    requires Valid(st)
    ensures Valid(After(st, CustomerController.UpdateCustomer(st, me, c)))
  {
  }

  lemma CustomerPurchaseKeepsValid(st: Store, me: int, couponId: int)
    requires Valid(st)
    ensures Valid(After(st, CustomerController.PurchaseCoupon(st, me, couponId)))
  {
  }
}
