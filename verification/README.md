# Coupon system: session registry and authorization gate

This project models the core of a Spring coupon-management service in Dafny. The service has three
kinds of users: the single administrator, companies that publish coupons, and customers that buy
them. The model covers:

- **Sessions.** Login with role dispatch. A session token is a 15-character prefix of a random UUID
  with its dashes removed. There is a registry from tokens to client sessions, and every call stamps
  the last-access time of its session. Logout is modelled, and so is the idle-session sweeper.
- **The gate.** Each REST endpoint of the admin, company and customer controllers is modelled. Each
  runs its ordered `checkIf…` rules and stops at the first failure, with the same exception kind and
  message text as the code. Only then does it call the service.
- **Service effects.** The services act on an abstract store, scoped to the capability of the session.
  The store holds the company, customer and coupon tables (identity keys) and the customer_coupon
  purchase relation.
- **The daily coupon-expiry sweep.**
- **The exception handler.** It maps each exception kind to an HTTP status and a message prefix.

Modelling choices:

- Everything is a pure function over immutable values.
- Java `null` fields become `Option`.
- Exceptions become a `Result` carrying an error `Kind` and the exact message.
- The clock is an explicit `now`. The UUID is a parameter.
- Each request happens at one instant.
- `Repository.Valid` is the store invariant. It requires:
  - issued keys;
  - ids equal to keys;
  - required fields present;
  - owners and purchase edges that point at live rows;
  - unique emails and titles.

  Every endpoint is proved to preserve it (`Invariants`, `Endpoints.HandleKeepsValid`).

Modules follow the source. Files and their modules:

| file | module | models |
|---|---|---|
| `entities.dfy` | `Entities` | `Coupon`, `Company`, `Customer` |
| `store.dfy` | `Repository` | the repositories |
| `sessions.dfy` | `Sessions` | `ClientSession` and `getService` |
| `tokens.dfy` | `Tokens` | token generation |
| `coupon_system.dfy` | `CouponSystem` | `CouponSystem` |
| `login_controller.dfy` | `LoginController` | `LoginController` |
| `admin_service.dfy` | `AdminService` | `AdminServiceImpl` |
| `company_service.dfy` | `CompanyService` | `CompanyServiceImpl` |
| `customer_service.dfy` | `CustomerService` | `CustomerServiceImpl` |
| `admin_controller.dfy` | `AdminController` | `AdminController` |
| `company_controller.dfy` | `CompanyController` | `CompanyController` |
| `customer_controller.dfy` | `CustomerController` | `CustomerController` |
| `session_cleaner.dfy` | `SessionCleaner` | `SessionCleaner` |
| `coupon_cleaner.dfy` | `CouponCleaner` | `CouponCleaner` |
| `exception_handler.dfy` | `ExceptionHandler` | `CouponSystemExceptionHandler` |
| `endpoints.dfy` | `Endpoints` | the dispatch of a request through the token registry to one controller |
| `authorization.dfy` | `Authorization` | cross-cutting properties of whole requests |
| `common.dfy` | `Common` | `Option` for Java `null`, `Result` for exceptions |
| `errors.dfy` | `Errors` | the exception kinds and the shared login messages |
| `messages.dfy` | `Messages` | the exception message texts of the controllers |
| `checks.dfy` | `Checks` | the `checkIf…` rules that the controllers share |
| `responses.dfy` | `Responses` | response bodies, with 204 for an empty list |
| `invariants.dfy` | `Invariants` | the store invariant preserved by each write endpoint |

## Model

| member | source | states |
|---|---|---|
| Sessions.Session.Accessed | src/main/java/com/cs/rest/ClientSession.java:33-35 | A touch sets the last-access time to exactly the current time and leaves the bound service unchanged. |
| Sessions.AccessesMonotone | src/main/java/com/cs/rest/ClientSession.java:33-35 | With a non-decreasing clock, repeated touches never lower `lastAccessedMillis`. It ends at the last time seen, and the bound service never changes. |
| Sessions.GetService | src/main/java/com/cs/rest/controller/AdminController.java:64-75 | An unknown token fails with InvalidLogin and the timeout message, and the registry is unchanged. A known token is stamped with `now` and no other entry changes. The result is Ok iff the session's service has the controller's role, and it is then exactly the stored service. A token of another role is still stamped, then gives WrongRole. |
| Sessions.GetServiceIdempotent | src/main/java/com/cs/rest/controller/CustomerController.java:60-71 | Resolving a token twice at the same instant gives the same service and the same registry as resolving it once. So a request that calls `getService` in several helpers behaves like one call. |
| Tokens.GenerateToken | src/main/java/com/cs/rest/controller/LoginController.java:93-98 | A token is exactly 15 characters, all hex digits, and equals the first 15 hex digits of the UUID. For a random (version 4) UUID, the token's character 12 is always the version digit '4'. |
| Tokens.UuidTextRoundTrip | src/main/java/com/cs/rest/controller/LoginController.java:93-98 | Removing the dashes from the canonical 8-4-4-4-12 UUID text gives back its 32 hex digits, so the token is a prefix of the UUID's digits. |
| Tokens.StripDashes | src/main/java/com/cs/rest/controller/LoginController.java:96 | The dash-free text is never longer than the input and contains no dash. |
| CouponSystem.Login | src/main/java/com/cs/rest/CouponSystem.java:48-59 | An unknown user type fails with InvalidLogin. Admin succeeds iff the pair is ("admin", "1234"). Company and customer logins (in a valid store) succeed iff some row matches both email and password, and the session is bound to that row's id. Every success is stamped with `now`, and every failure carries the one "invalid email or password" message. |
| CouponSystem.AdminLogin | src/main/java/com/cs/rest/CouponSystem.java:154-163 | Succeeds iff the email is "admin" and the password "1234". The session is the admin service stamped with `now`; any other pair gets InvalidLogin with the shared message. |
| CouponSystem.CompanyLogin | src/main/java/com/cs/rest/CouponSystem.java:129-141 | A successful company login is bound to a company whose email and password both match. When at most one row matches, it succeeds iff one does. |
| CouponSystem.CustomerLogin | src/main/java/com/cs/rest/CouponSystem.java:102-114 | The customer counterpart of the company login: bound to a matching customer, and succeeds iff one matches. |
| CouponSystem.SingleResult | src/main/java/com/cs/repository/CustomerRepository.java:11 | A single-result query gives nothing for no match and the one row for one match. For more than one match it gives NonUniqueResult. |
| CouponSystem.ValidMatchesAtMostOne | src/main/java/com/cs/repository/CustomerRepository.java:11 | In a valid store, emails are unique, so a credentials lookup matches at most one company and at most one customer. |
| LoginController.Login | src/main/java/com/cs/rest/controller/LoginController.java:54-65 | A failed authentication returns its error and leaves the registry unchanged. A success returns the generated token and puts the new session under it, stamped with `now`; nothing else changes. |
| LoginController.Logout | src/main/java/com/cs/rest/controller/LoginController.java:67-70 | The token is gone afterwards, and every other entry is kept unchanged. |
| LoginController.GetLastAccessed | src/main/java/com/cs/rest/controller/LoginController.java:80-91 | An unknown token fails with InvalidLogin and changes nothing. A known token is stamped with `now`, `now` is returned, and every other session is unchanged. |
| LoginController.LogoutIdempotent | src/main/java/com/cs/rest/controller/LoginController.java:67-70 | Logging out twice is the same as once, and logging out an unknown token changes nothing. |
| LoginController.LogoutRevokes | src/main/java/com/cs/rest/controller/LoginController.java:67-70 | After logout the token is refused with InvalidLogin by every controller's `getService` and by `getlastAccessed`. |
| LoginController.LoginOverwrites | src/main/java/com/cs/rest/controller/LoginController.java:60-62 | A generated token that is already in use silently replaces the session stored under it. The registry keeps the same set of tokens. |
| LoginController.LoginThenResolve | src/main/java/com/cs/rest/controller/LoginController.java:54-65 | The token a successful login returns resolves, in the controller of the matching role, to the service the login bound. |
| SessionCleaner.SweepPass | src/main/java/com/cs/rest/SessionCleaner.java:64-71 | A token survives one pass iff its session has been idle for less than 30 minutes (1 800 000 ms) at `now`. Survivors are not modified. |
| SessionCleaner.SweepIdempotent | src/main/java/com/cs/rest/SessionCleaner.java:61-72 | A second pass at the same `now` changes nothing. |
| SessionCleaner.SweepMonotone | src/main/java/com/cs/rest/SessionCleaner.java:68 | A later pass keeps no token that an earlier pass evicts. |
| SessionCleaner.SweepThenResolve | src/main/java/com/cs/rest/SessionCleaner.java:68-71 | An active session still resolves after a pass. An idle one is evicted and afterwards refused with InvalidLogin. |
| SessionCleaner.Run | src/main/java/com/cs/rest/SessionCleaner.java:51-79 | Corrected sweeper loop. It handles events until the first `stop` and then exits. Its registry is the replay of those events. After a wake-up no idle session is left. |
| SessionCleaner.StuckForever | src/main/java/com/cs/rest/SessionCleaner.java:57-73 | As written: once the copy map holds more tokens than the registry, no later wake-up removes anything. |
| SessionCleaner.LogoutFreezesSweeper | src/main/java/com/cs/rest/SessionCleaner.java:57-73 | As written: after one logout, as long as no further login or logout happens, the two maps differ in size at every wake-up. So a session that has been idle for the full 30 minutes is never evicted, however late the clock. |
| SessionCleaner.QuietForever | src/main/java/com/cs/rest/SessionCleaner.java:59-73 | As written: while the two maps keep equal sizes, the sweeper stays in the inner loop, which never reads the stop flag. |
| SessionCleaner.StopIgnored | src/main/java/com/cs/rest/SessionCleaner.java:55-79 | As written: a sweeper with one active session does not exit after `stop()`. |
| CouponCleaner.Pass | src/main/java/com/cs/rest/CouponCleaner.java:37-45 | Within a day of the last clean, nothing happens. Otherwise `lastCleaned` becomes `now` and exactly the coupons whose end date is strictly before `now` are deleted, with their purchase edges. When none has expired, the store is unchanged. |
| CouponCleaner.PassKeepsValid | src/main/java/com/cs/rest/CouponCleaner.java:41-45 | A pass keeps the store valid. |
| CouponCleaner.OncePerDay | src/main/java/com/cs/rest/CouponCleaner.java:37-39 | After a pass, every pass within the following day is a no-op. |
| CouponCleaner.Run | src/main/java/com/cs/rest/CouponCleaner.java:31-53 | The loop exits at the first `stop`. It deletes only expired coupons and changes no surviving coupon. After any pass, no remaining coupon ended before the last cleaning time, and validity is preserved. |
| Entities.Decrement | src/main/java/com/cs/rest/service/CustomerServiceImpl.java:58 | `amount - 1` on the Java `int` wraps around at the minimum value, and otherwise strictly decreases. |
| Entities.Adopt | src/main/java/com/cs/entity/Coupon.java:144-146 | Setting the owner changes only the owning-company reference. |
| Entities.NewCompany | src/main/java/com/cs/entity/Company.java:36-38 | A new company starts with an empty coupon list. |
| Entities.NewCoupon | src/main/java/com/cs/entity/Coupon.java:63-65 | A new coupon starts with an empty customer list. |
| Entities.AddCoupon | src/main/java/com/cs/entity/Company.java:82-85 | `add` keeps the existing coupons and appends one. The appended coupon is the one given, with its owner set to this company. |
| Entities.AddCustomer | src/main/java/com/cs/entity/Coupon.java:153-155 | `addCustomer` keeps the existing customers and appends exactly the customer given. |
| Entities.AddCouponsOwned | src/main/java/com/cs/entity/Company.java:82-85 | Calling `add` for a sequence of coupons lists them in call order, each adopted by the company. Every listed coupon keeps pointing back at its company, so the list agrees with the `Coupon.company` references the store uses. |
| Entities.AddCustomersAppends | src/main/java/com/cs/entity/Coupon.java:153-155 | Calling `addCustomer` for a sequence of customers appends exactly them, in call order. |
| Repository.Find | src/main/java/com/cs/rest/service/AdminServiceImpl.java:48-51 | `findById(id).orElse(null)` gives null iff the id has no row, and otherwise that row. |
| Repository.Save | src/main/java/com/cs/rest/service/AdminServiceImpl.java:33-36 | An entity whose id names a row replaces it. Any other entity is inserted under the next identity key, which was unused. No key is lost. |
| Repository.DeleteCustomer | src/main/java/com/cs/rest/service/AdminServiceImpl.java:38-41 | Only that customer's row goes, together with its purchase edges; every other table is unchanged. |
| Repository.DeleteCoupons | src/main/java/com/cs/rest/CouponCleaner.java:43-45 | Exactly the given coupon rows go, with every purchase edge on them. The other rows are unchanged. |
| Repository.DeleteCompany | src/main/java/com/cs/entity/Company.java:33-34 | The cascade on coupons removes the company's row, all coupons it owns, and the purchase edges on those coupons. Everything else is kept. |
| Repository.DeleteCompanyValid | src/main/java/com/cs/entity/Company.java:33-34 | The cascading delete leaves a valid store: no coupon is left without an owner. |
| Repository.DeleteCustomerValid | src/main/java/com/cs/rest/service/AdminServiceImpl.java:38-41 | Deleting a customer leaves a valid store. |
| Repository.DeleteCouponsValid | src/main/java/com/cs/rest/CouponCleaner.java:43-45 | Deleting coupons leaves a valid store: no purchase edge dangles. |
| Responses.CustomerList | src/main/java/com/cs/rest/controller/AdminController.java:113-124 | The list endpoint answers "no content" iff there is no customer, and otherwise returns them all. |
| Responses.CompanyList | src/main/java/com/cs/rest/controller/AdminController.java:188-199 | "No content" iff there is no company. |
| Responses.CouponList | src/main/java/com/cs/rest/controller/AdminController.java:265-276 | "No content" iff there is no coupon. |
| Checks.CheckCustomerIsValid | src/main/java/com/cs/rest/controller/AdminController.java:350-360 | Passes iff email and password are non-null, and an empty string passes. Otherwise InvalidUser with the customer message. |
| Checks.CheckCompanyIsValid | src/main/java/com/cs/rest/controller/AdminController.java:446-456 | Passes iff email and password are non-null. Otherwise InvalidUser with the company message. |
| Checks.CheckCouponIsValid | src/main/java/com/cs/rest/controller/AdminController.java:544-552 | Passes iff title and end date are non-null. Otherwise IllegalCoupon. |
| Checks.CheckCouponTitleExists | src/main/java/com/cs/rest/controller/AdminController.java:519-532 | Passes iff no coupon of any company has the same title. Otherwise IllegalCoupon naming the title. |
| AdminController.CheckCustomerEmailExists | src/main/java/com/cs/rest/controller/AdminController.java:327-339 | Passes iff no stored customer has the submitted email. Otherwise EmailAlreadyExists. |
| AdminController.CheckCustomerExists | src/main/java/com/cs/rest/controller/AdminController.java:400-408 | Passes iff the id has a row. Otherwise NoCustomerFound. |
| AdminController.CheckCustomerEmailChanged | src/main/java/com/cs/rest/controller/AdminController.java:375-387 | NoCustomerFound for an unknown id. Otherwise passes iff the stored email equals the submitted one, and IllegalChange if it does not. |
| AdminController.CheckCompanyEmailExists | src/main/java/com/cs/rest/controller/AdminController.java:423-435 | Passes iff no stored company has the submitted email. Otherwise EmailAlreadyExists. |
| AdminController.CheckCompanyExists | src/main/java/com/cs/rest/controller/AdminController.java:497-504 | Passes iff the id has a row. Otherwise NoCompanyFound. |
| AdminController.CheckCompanyEmailChanged | src/main/java/com/cs/rest/controller/AdminController.java:471-484 | NoCompanyFound for an unknown id. Otherwise passes iff the email is unchanged, and IllegalChange if it changed. |
| AdminController.CheckCouponExists | src/main/java/com/cs/rest/controller/AdminController.java:607-613 | Passes iff the id has a row. Otherwise NoCouponFound. |
| AdminController.CheckCouponValidToUpdate | src/main/java/com/cs/rest/controller/AdminController.java:574-595 | Passes iff the coupon is complete, the company exists, the coupon exists, it is owned by that company, and its title is unchanged. The first failing rule picks the kind: IllegalCoupon, NoCompanyFound, NoCouponFound, IllegalChange, IllegalCoupon. |
| AdminController.AddCustomer | src/main/java/com/cs/rest/controller/AdminController.java:79-90 | Succeeds iff credentials are present and the email is unused. The null check comes first, so a null email is InvalidUser, not a conflict. On success the customer is inserted under a fresh key (id reset to 0) and only the customer table changes. |
| AdminController.UpdateCustomer | src/main/java/com/cs/rest/controller/AdminController.java:92-102 | Succeeds iff credentials are present, the id exists and the email is unchanged. Errors in that order are InvalidUser, NoCustomerFound, IllegalChange. On success exactly that row is replaced. |
| AdminController.DeleteCustomer | src/main/java/com/cs/rest/controller/AdminController.java:104-111 | Succeeds iff the customer exists, and otherwise gives NoCustomerFound with the store unchanged. On success the row and its purchase edges are gone, and every other customer, edge, coupon and company is unchanged. |
| AdminController.FindAllCustomers | src/main/java/com/cs/rest/controller/AdminController.java:113-124 | Returns all customers, or "no content" iff there are none. The store is unchanged. |
| AdminController.FindCustomerById | src/main/java/com/cs/rest/controller/AdminController.java:126-135 | Returns the stored row iff it exists. Otherwise NoCustomerFound. |
| AdminController.FindCustomerCoupons | src/main/java/com/cs/rest/controller/AdminController.java:137-150 | For an existing customer, returns exactly the coupons that customer holds, or "no content". For an unknown one, NoCustomerFound. |
| AdminController.AddCompany | src/main/java/com/cs/rest/controller/AdminController.java:154-165 | Succeeds iff credentials are present and the email is unused, checked in that order (InvalidUser, then EmailAlreadyExists). The company is inserted under a fresh key. |
| AdminController.UpdateCompany | src/main/java/com/cs/rest/controller/AdminController.java:167-177 | Succeeds iff credentials are present, the company exists and its email is unchanged. Errors in that order are InvalidUser, NoCompanyFound, IllegalChange. Exactly that row is replaced. |
| AdminController.DeleteCompany | src/main/java/com/cs/rest/controller/AdminController.java:179-186 | Succeeds iff the company exists, and otherwise gives NoCompanyFound. On success the company, all its coupons and the purchase edges on them go. Every other company, coupon, edge and customer is kept unchanged. |
| AdminController.FindAllCompanies | src/main/java/com/cs/rest/controller/AdminController.java:188-199 | Returns all companies, or "no content" iff there are none. |
| AdminController.FindCompanyById | src/main/java/com/cs/rest/controller/AdminController.java:201-210 | Returns the stored row iff it exists. Otherwise NoCompanyFound. |
| AdminController.FindCompanyCoupons | src/main/java/com/cs/rest/controller/AdminController.java:212-225 | For an existing company, returns exactly its coupons, or "no content". For an unknown one, NoCompanyFound. |
| AdminController.AddCoupon | src/main/java/com/cs/rest/controller/AdminController.java:229-242 | Succeeds iff the coupon is complete, the path company exists and the title is unused anywhere. The first failure picks IllegalCoupon, NoCompanyFound or IllegalCoupon. The coupon is inserted under a fresh key, owned by the path company. |
| AdminController.UpdateCoupon | src/main/java/com/cs/rest/controller/AdminController.java:244-254 | Succeeds iff the update rules pass, with their error on failure. On success the row is replaced by the coupon sent, owned by the path company. |
| AdminController.DeleteCoupon | src/main/java/com/cs/rest/controller/AdminController.java:256-263 | Succeeds iff the coupon exists, and otherwise gives NoCouponFound. On success the row and every edge on it go, and every other coupon, edge, company and customer is unchanged. |
| AdminController.FindAllCoupons | src/main/java/com/cs/rest/controller/AdminController.java:265-276 | Returns all coupons, or "no content" iff there are none. |
| AdminController.FindCouponById | src/main/java/com/cs/rest/controller/AdminController.java:278-287 | Returns the stored row iff it exists. Otherwise NoCouponFound. |
| AdminController.GetCompanyIdFromCoupon | src/main/java/com/cs/rest/controller/AdminController.java:301-312 | An unknown coupon gives NoCouponFound. A success returns the id of the coupon's owner, which exists. In a valid store it succeeds iff the coupon exists. |
| AdminService.FindCustomerById | src/main/java/com/cs/rest/service/AdminServiceImpl.java:48-51 | Null iff no customer has that id, otherwise the stored row. |
| AdminService.FindCompanyById | src/main/java/com/cs/rest/service/AdminServiceImpl.java:73-76 | Null iff no company has that id, otherwise the stored row. |
| AdminService.FindCouponById | src/main/java/com/cs/rest/service/AdminServiceImpl.java:104-107 | Null iff no coupon has that id, otherwise the stored row. |
| AdminService.FindCustomerCoupons | src/main/java/com/cs/rest/service/AdminServiceImpl.java:53-56 | Exactly the coupons held by the given customer. |
| AdminService.FindCompanyCoupons | src/main/java/com/cs/rest/service/AdminServiceImpl.java:78-81 | Exactly the coupons owned by the given company. |
| AdminService.DeleteCustomer | src/main/java/com/cs/rest/service/AdminServiceImpl.java:38-41 | Removes exactly that customer and the purchase edges it holds. The other tables and every other edge are unchanged. |
| AdminService.DeleteCompany | src/main/java/com/cs/rest/service/AdminServiceImpl.java:63-66 | Removes exactly that company. |
| AdminService.DeleteCoupon | src/main/java/com/cs/rest/service/AdminServiceImpl.java:94-97 | Removes exactly that coupon and every purchase edge on it. The other tables and every other edge are unchanged. |
| AdminService.SaveCoupon | src/main/java/com/cs/rest/service/AdminServiceImpl.java:83-92 | If the company exists, the coupon passed in is saved owned by it and otherwise unaltered. It replaces the row under its id, or is inserted under the next identity key. Every other coupon, table and edge is kept. Otherwise nothing changes. |
| AdminService.GetCompanyIdFromCoupon | src/main/java/com/cs/rest/service/AdminServiceImpl.java:109-117 | Gives 0 for an absent coupon, and otherwise the owner's id. An owner-less coupon dereferences null. In a valid store it always succeeds. |
| CompanyService.FindCurrentCompany | src/main/java/com/cs/rest/service/CompanyServiceImpl.java:37-41 | Gives the row of the session's company, or null if it was deleted. |
| CompanyService.SaveCoupon | src/main/java/com/cs/rest/service/CompanyServiceImpl.java:43-52 | When the session's company exists, the coupon passed in is saved owned by that company, whatever owner it named. It is otherwise unaltered, and replaces the row under its id or is inserted under the next identity key. Every other coupon is kept. Otherwise nothing is saved and null is returned. |
| CompanyService.FindCompanyCoupons | src/main/java/com/cs/rest/service/CompanyServiceImpl.java:54-57 | Exactly the coupons owned by the session's company. |
| CompanyService.FindCouponById | src/main/java/com/cs/rest/service/CompanyServiceImpl.java:59-63 | Unscoped: any company's coupon with that id. |
| CompanyService.FindAllCoupons | src/main/java/com/cs/rest/service/CompanyServiceImpl.java:65-68 | Unscoped: every coupon of every company. |
| CustomerService.FindCurrentCustomer | src/main/java/com/cs/rest/service/CustomerServiceImpl.java:35-39 | Gives the row of the session's customer, or null if it was deleted. |
| CustomerService.FindCustomerCoupons | src/main/java/com/cs/rest/service/CustomerServiceImpl.java:41-44 | Exactly the coupons the session's customer holds. |
| CustomerService.PurchaseCoupon | src/main/java/com/cs/rest/service/CustomerServiceImpl.java:46-63 | When customer and coupon both exist, the purchase edge is added, the amount is decremented once and the coupon is returned. Otherwise the store is unchanged and null is returned. No stock or duplicate check is made here. |
| CustomerService.FindCouponById | src/main/java/com/cs/rest/service/CustomerServiceImpl.java:70-74 | Unscoped lookup by id. |
| CompanyController.CheckCompanyExists | src/main/java/com/cs/rest/controller/CompanyController.java:156-163 | Passes iff the session's company still exists. Otherwise NoCompanyFound. |
| CompanyController.CheckCouponExists | src/main/java/com/cs/rest/controller/CompanyController.java:333-340 | Passes iff the coupon exists. Otherwise NoCouponFound. |
| CompanyController.CheckCouponAssociated | src/main/java/com/cs/rest/controller/CompanyController.java:312-320 | Passes iff the coupon's owner is the current company. Otherwise IllegalChange. A deleted current company dereferences null. |
| CompanyController.CheckCompanyValidToUpdate | src/main/java/com/cs/rest/controller/CompanyController.java:220-236 | Passes iff credentials are present, the id is the session's, and the email is unchanged. Errors in that order are InvalidUser, IllegalChange, IllegalChange. |
| CompanyController.CheckCouponValidToUpdate | src/main/java/com/cs/rest/controller/CompanyController.java:281-298 | Passes iff the coupon exists, it is complete, the session's company exists and owns it, and its title is unchanged. The first failing rule picks the kind: NoCouponFound, IllegalCoupon, NullDereference (the session's company was deleted), IllegalChange, IllegalCoupon. `CompanyController.UpdateCoupon` tests that the company exists before this check. |
| CompanyController.GetCurrentCompany | src/main/java/com/cs/rest/controller/CompanyController.java:72-81 | Returns the session's company, or NoCompanyFound if it was deleted. |
| CompanyController.UpdateCompany | src/main/java/com/cs/rest/controller/CompanyController.java:83-91 | A company can replace only its own row, and only with an unchanged email. The error order is InvalidUser, then IllegalChange. |
| CompanyController.AddCoupon | src/main/java/com/cs/rest/controller/CompanyController.java:93-104 | Succeeds iff the coupon is complete and its title unused anywhere (IllegalCoupon otherwise). It is inserted under a fresh key owned by the session's company. If that company was deleted, nothing is stored. |
| CompanyController.UpdateCoupon | src/main/java/com/cs/rest/controller/CompanyController.java:106-117 | Succeeds iff the update rules pass. The row is replaced by the coupon sent, owned by the session's company. |
| CompanyController.FindCompanyCoupons | src/main/java/com/cs/rest/controller/CompanyController.java:119-130 | Exactly the session company's coupons, or "no content" iff it has none. |
| CompanyController.FindCouponById | src/main/java/com/cs/rest/controller/CompanyController.java:132-143 | NoCouponFound for an absent id. IllegalChange for another company's coupon. Otherwise the coupon. |
| CustomerController.CheckCustomerExists | src/main/java/com/cs/rest/controller/CustomerController.java:155-162 | Passes iff the session's customer still exists. Otherwise NoCustomerFound. |
| CustomerController.CheckCouponExists | src/main/java/com/cs/rest/controller/CustomerController.java:272-279 | Passes iff the coupon exists. Otherwise NoCouponFound. |
| CustomerController.CheckCustomerValidToUpdate | src/main/java/com/cs/rest/controller/CustomerController.java:178-194 | Passes iff credentials are present, the id is the session's, and the email is unchanged. Errors in that order are InvalidUser, IllegalChange, IllegalChange. |
| CustomerController.CheckCouponInStock | src/main/java/com/cs/rest/controller/CustomerController.java:251-259 | Passes iff the amount is positive. A zero or negative amount is IllegalCoupon. |
| CustomerController.CheckCouponPurchased | src/main/java/com/cs/rest/controller/CustomerController.java:229-240 | Passes iff the customer holds no coupon with that id. Otherwise IllegalCoupon naming the coupon. |
| CustomerController.GetCurrentCustomer | src/main/java/com/cs/rest/controller/CustomerController.java:73-82 | Returns the session's customer, or NoCustomerFound if it was deleted. |
| CustomerController.UpdateCustomer | src/main/java/com/cs/rest/controller/CustomerController.java:84-92 | A customer can replace only its own row, and only with an unchanged email. The error order is InvalidUser, then IllegalChange. |
| CustomerController.FindCustomerCoupons | src/main/java/com/cs/rest/controller/CustomerController.java:94-104 | Exactly the coupons the customer holds, or "no content" iff none. |
| CustomerController.PurchaseCoupon | src/main/java/com/cs/rest/controller/CustomerController.java:106-119 | Checks run in the order exists, then in stock, then not already held, and any failure leaves the store unchanged. On success, if the customer still exists, exactly one edge is added and the coupon's amount drops by one; otherwise nothing changes. |
| CustomerController.FindAllCoupons | src/main/java/com/cs/rest/controller/CustomerController.java:121-132 | Every coupon, or "no content" iff there is none. |
| CustomerController.FindCouponById | src/main/java/com/cs/rest/controller/CustomerController.java:134-143 | No ownership restriction: the coupon iff it exists, otherwise NoCouponFound. |
| Invariants.AdminAddCustomerKeepsValid | src/main/java/com/cs/rest/controller/AdminController.java:79-90 | Adding a customer keeps the store valid. |
| Invariants.AdminUpdateCustomerKeepsValid | src/main/java/com/cs/rest/controller/AdminController.java:92-102 | Updating a customer keeps the store valid. |
| Invariants.AdminDeleteCustomerKeepsValid | src/main/java/com/cs/rest/controller/AdminController.java:104-111 | Deleting a customer keeps the store valid. |
| Invariants.AdminAddCompanyKeepsValid | src/main/java/com/cs/rest/controller/AdminController.java:154-165 | Adding a company keeps the store valid, in particular email uniqueness. |
| Invariants.AdminUpdateCompanyKeepsValid | src/main/java/com/cs/rest/controller/AdminController.java:167-177 | Updating a company keeps the store valid. |
| Invariants.AdminDeleteCompanyKeepsValid | src/main/java/com/cs/rest/controller/AdminController.java:179-186 | Deleting a company keeps the store valid. |
| Invariants.AdminAddCouponKeepsValid | src/main/java/com/cs/rest/controller/AdminController.java:229-242 | Adding a coupon keeps the store valid, in particular title uniqueness. |
| Invariants.AdminUpdateCouponKeepsValid | src/main/java/com/cs/rest/controller/AdminController.java:244-254 | Updating a coupon keeps the store valid. |
| Invariants.AdminDeleteCouponKeepsValid | src/main/java/com/cs/rest/controller/AdminController.java:256-263 | Deleting a coupon keeps the store valid. |
| Invariants.CompanyUpdateCompanyKeepsValid | src/main/java/com/cs/rest/controller/CompanyController.java:83-91 | A company's self-update keeps the store valid. |
| Invariants.CompanyAddCouponKeepsValid | src/main/java/com/cs/rest/controller/CompanyController.java:93-104 | A company adding a coupon keeps the store valid. |
| Invariants.CompanyUpdateCouponKeepsValid | src/main/java/com/cs/rest/controller/CompanyController.java:106-117 | A company updating its coupon keeps the store valid. |
| Invariants.CustomerUpdateCustomerKeepsValid | src/main/java/com/cs/rest/controller/CustomerController.java:84-92 | A customer's self-update keeps the store valid. |
| Invariants.CustomerPurchaseKeepsValid | src/main/java/com/cs/rest/controller/CustomerController.java:106-119 | A purchase keeps the store valid. |
| Endpoints.Handle | src/main/java/com/cs/rest/controller/CompanyController.java:60-70 | A request with an unknown token is refused with InvalidLogin and changes nothing. Otherwise the token alone is stamped with `now` and the token set is kept. A token of another role gives WrongRole without touching the store. Every failed request leaves the store unchanged. |
| Endpoints.ServeKeepsValid | src/main/java/com/cs/rest/controller/CustomerController.java:73-143 | Every endpoint of every controller keeps the store valid. |
| Endpoints.HandleKeepsValid | src/main/java/com/cs/rest/controller/AdminController.java:79-312 | Every request, whatever its token, keeps the store valid. |
| Authorization.CompanySessionConfined | src/main/java/com/cs/rest/controller/CompanyController.java:72-143 | No request through a company session touches customers, purchases, another company's row, or a coupon the company does not own. |
| Authorization.CustomerSessionConfined | src/main/java/com/cs/rest/controller/CustomerController.java:73-143 | No request through a customer session touches companies, another customer's row, or the set of coupons. Coupons change at most in amount, and only edges of this customer are added. |
| Authorization.PurchaseTwice | src/main/java/com/cs/rest/controller/CustomerController.java:106-119 | Buying the same coupon twice decrements its amount once and adds one edge. The second attempt is refused: as already purchased if stock remains, as out of stock if the first took the last unit. |
| Authorization.PurchaseOutOfStock | src/main/java/com/cs/rest/controller/CustomerController.java:251-259 | A coupon with amount at most 0 is refused with IllegalCoupon and its out-of-stock message, and nothing changes. |
| Authorization.ForeignCouponUpdateRefused | src/main/java/com/cs/rest/controller/CompanyController.java:312-320 | A company updating a complete coupon it does not own gets IllegalChange, and nothing changes. |
| Authorization.CustomerEmailFixed | src/main/java/com/cs/rest/controller/AdminController.java:375-387 | Even the admin cannot change a customer's email: IllegalChange naming both emails, and nothing changes. |
| ExceptionHandler.Respond | src/main/java/com/cs/rest/ex/CouponSystemExceptionHandler.java:23-85 | The handled kinds and their status codes are: InvalidLogin 401, EmailAlreadyExists 409, IllegalChange 403, IllegalCoupon and InvalidUser 406, the three not-found kinds 404. Each response is prefixed with its reason phrase. WrongRole, NullDereference and NonUniqueResult get no handler response. |
| ExceptionHandler.MessageRecoverable | src/main/java/com/cs/rest/ex/CouponSystemExceptionHandler.java:23-85 | The prefix is fixed by the status, so the original exception message can be read back from the response. Two errors with equal responses carry equal messages. |

## Left out

- Concurrency. The shared unsynchronised registry, the cleaner threads, busy-waiting and non-volatile stop flags are not modelled, and neither is the race between purchase checks and the purchase. Each request and each sweeper wake-up is atomic.
- Spring and HTTP wiring. Routing, `ResponseEntity`, CORS, bean scopes and `getBean` are not modelled. From `RestConfiguration`, only the fact that the registry starts empty is kept (`Sessions.EmptyRegistry`). Response bodies are the `Payload` values, and a 200 with an empty list is "no content".
- JPA internals. Repositories are tables with identity keys plus pure queries. Customer.java and the `Customer.addCoupon` mapping are not part of this model.
- Coupon updates keep purchase edges in the model. The source probably clears them:
  - `getCustomers` is `@JsonIgnore` (`Coupon.java:148-150`), so a coupon read from a request body carries the constructor's empty list (`Coupon.java:63-65`).
  - That list is on the `@JoinTable` side (`Coupon.java:51-61`), so saving the updated coupon presumably deletes its customer_coupon rows.
  - A customer could then buy the coupon again.
  - The model assumes the edges survive, because Customer.java, which maps the same join table, is not part of this model. `Authorization.PurchaseTwice` and the purchase rules therefore assume no coupon update happens between two purchases.
- Randomness. `UUID.randomUUID` becomes the 32-digit parameter of `LoginController.Login`. The parameter is constrained only to be a version 4 UUID, with no other distribution.
- Clock. `System.currentTimeMillis` and `java.sql.Date` become integers. All of a request's `getService` calls happen at the same `now` (`Sessions.GetServiceIdempotent`). A sweeper wake-up also reads the clock once, where the source reads it again at several points:
  - `CouponCleaner.run` reads it three times: at the day gate (`CouponCleaner.java:37`), for `lastCleaned` (line 39) and in `new Date()` for the expiry query (line 41). `CouponCleaner.Pass` uses one `now` for all three.
  - `SessionCleaner.run` reads it once per entry (`SessionCleaner.java:68`). `SessionCleaner.SweepPass` uses one `now` for the whole pass.
- Floating point and inert fields. Coupon price, description, image URL and category take part in no rule and are not modelled.
- Getters and setters. These are field reads and record updates of the datatypes, so `setService`/`getService`, `setId`/`getId` and `setEmail`/`getEmail` round-trip by construction.
- `CouponSystemErrorResponse` is a datatype with no logic of its own.
- Entities.Decrement: Java's 32-bit wrap-around of `amount` is modelled. Long ids and timestamps are unbounded integers, so their overflow is not modelled.
- Sessions.GetService: a token of the wrong role throws an unhandled `ClassCastException` in Java. It is modelled as the error kind WrongRole, which `ExceptionHandler.Respond` leaves unhandled.
- A missing current company or customer that the code dereferences is modelled as the unhandled kind NullDereference, not as a crash. This happens in company `updateCompany`, in `checkIfCouponAssociatedToCurrentCompany` and in customer `updateCustomer`.
- Holdings are a set of (customer, coupon) pairs, so a duplicate join row cannot be represented. The gate prevents duplicates anyway.
- CustomerController.CheckCouponPurchased names in its message the title of the stored coupon with the requested id, which is the coupon the held match has.
- Purchase order. The code checks stock before the duplicate check. So buying the last unit and then buying again is refused as out of stock, not as already purchased (`Authorization.PurchaseTwice`).
- CompanyController.AddCoupon: when the session's company was deleted, the code saves nothing but still answers 200 with the submitted coupon (id 0). The model returns the same.
- The session sweeper's copy-map loop is modelled twice. The as-written state machine is kept only to exhibit the findings below; the corrected single-pass sweeper and its loop are the ones used.

## Findings

| source | as written | input that shows it | evidently intended | confidence | as-written member | corrected member |
|---|---|---|---|---|---|---|
| src/main/java/com/cs/rest/SessionCleaner.java:57-73 | The inner loop runs only while the copy map and the registry have equal sizes. `putAll` never removes from the copy, so a token removed by logout stays in it. | Two admin sessions at time 0; one logs out; with no further login or logout, the clock then advances by 30 minutes or more. | Each wake-up evicts every session idle for 30 minutes. | not executed | SessionCleaner.LogoutFreezesSweeper | SessionCleaner.SweepPass |
| src/main/java/com/cs/rest/SessionCleaner.java:55-79 | `stop()` clears the flag that only the outer loop tests. The inner loop keeps spinning while sizes stay equal. | One active session at time 0; wake-ups at 0 and 0, then `stop()`. | The sweeper exits after `stop()`. | not executed | SessionCleaner.StopIgnored | SessionCleaner.Run |
