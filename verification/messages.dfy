/** The messages the controllers attach to the exceptions they raise, `String.format` included
    (a `null` argument prints as "null"). */
module Messages {
  import opened Common

  /** `String.valueOf` of a nullable string. */
  function Show(s: Option<string>): string {
    match s
    case Some(v) => v
    case None => "null"
  }

  const CustomerInvalid := "Unable to proceed. The customer received have no email or password."
  const CompanyInvalid := "Unable to proceed. The company received have no email or password."
  const CouponIncomplete := "Unable to proceed. The coupon received have no title or end date."

  /** The admin controller's not-found messages. */
  const CustomerNotFound := "Customer not found. Unable to find customer with that data given."
  const CompanyNotFound := "Company not found. Unable to find comapny with that data given."
  const CouponNotFoundAdmin := "Coupon not found. Unable to find coupon with the data given."

  /** The company and customer controllers' not-found messages. */
  const CouponNotFound := "Coupon not found. Unable to find coupon with the data given"
  const CurrentCompanyNotFound := "Unable to find company."
  const CurrentCustomerNotFound := "Unable to find customer."

  const CouponNotOfCompany := "Unable to update coupon, coupon not associated with the company given."
  const CompanyIdMismatch := "Unable to continue! id of the company is not match to the one currently log in."
  const CustomerIdMismatch := "Unable to continue! id of the customer is not match to the one currently log in."
  const CouponNotOwned :=
    "Unable to continue! id of the company that created that coupon is not match to the one currently log in."

  function EmailTaken(entity: string, email: Option<string>): string {
    "Unable to create new " + entity + ", the email '" + Show(email) + "' already exists in the system."
  }

  /** The admin controller's message for a customer: the emails are not quoted. */
  function CustomerEmailChange(from: Option<string>, to: Option<string>): string {
    "Unable to change the email from " + Show(from) + " to " + Show(to) + ", changing email address is not allowed."
  }

  /** Every other email-change message quotes the emails. */
  function EmailChange(from: Option<string>, to: Option<string>): string {
    "Unable to change the email from '" + Show(from) + "' to '" + Show(to) + "', changing email address is not allowed."
  }

  function TitleTaken(title: Option<string>): string {
    "The title '" + Show(title) + "' is alredy exist. you need to change the title in order to create that coupon."
  }

  function TitleChange(from: Option<string>, to: Option<string>): string {
    "Unable to update title from '" + Show(from) + "' to '" + Show(to)
    + "', you can not change the title in order to update that coupon."
  }

  function AlreadyPurchased(title: Option<string>): string {
    "Unable to purchase coupon '" + Show(title) + "'. coupon already purchased, duplicate are not allowed."
  }

  function OutOfStock(title: Option<string>): string {
    "Unable to purchase coupon '" + Show(title) + "'. coupon out of stack."
  }
}
