/** ClientSession and the token registry shared by the controllers (the "tokens" map). */
module Sessions {
  import opened Common
  import opened Errors

  type Token = string

  /** The service a login binds into its session: the admin service, or a company or customer
      service fixed to the id of the company or customer that logged in. */
  datatype Service = AdminService | CompanyService(companyId: int) | CustomerService(customerId: int)

  /** The service interface each controller casts the session's service to. */
  datatype Role = AdminRole | CompanyRole | CustomerRole

  function RoleOf(s: Service): Role {
    match s
    case AdminService => AdminRole
    case CompanyService(_) => CompanyRole
    case CustomerService(_) => CustomerRole
  }

  /** A ClientSession: its service and the time it was last accessed. */
  datatype Session = Session(service: Service, lastAccessedMillis: int) {

    /** `accessed()`: the session now carries the current time; its service is untouched. */
    function Accessed(now: int): (r: Session)
      ensures r.lastAccessedMillis == now
      ensures r.service == service
    {
      this.(lastAccessedMillis := now)
    }
  }

  /** The sequence of clock readings never goes back. */
  predicate NonDecreasing(clock: seq<int>) {
    forall i, j | 0 <= i <= j < |clock| :: clock[i] <= clock[j]
  }

  /** The session after one `accessed()` call per clock reading. */
  function AccessedAll(s: Session, clock: seq<int>): Session
    decreases |clock|
  {
    if clock == [] then s else AccessedAll(s.Accessed(clock[0]), clock[1..])
  }

  /** With a clock that never goes back, repeated accesses never move the stamp backwards, end on
      the last reading, and never change the bound service. */
  lemma {:induction false} AccessesMonotone(s: Session, clock: seq<int>)
    requires NonDecreasing(clock)
    requires clock != [] ==> s.lastAccessedMillis <= clock[0]
    ensures AccessedAll(s, clock).lastAccessedMillis >= s.lastAccessedMillis
    ensures clock != [] ==> AccessedAll(s, clock).lastAccessedMillis == clock[|clock| - 1]
    ensures AccessedAll(s, clock).service == s.service
    decreases |clock|
  {
    if clock != [] {
      var t := s.Accessed(clock[0]);
      assert NonDecreasing(clock[1..]) by {
        forall i, j | 0 <= i <= j < |clock[1..]| ensures clock[1..][i] <= clock[1..][j] {
          assert clock[1..][i] == clock[i + 1] && clock[1..][j] == clock[j + 1];
        }
      }
      assert clock[1..] != [] ==> clock[0] <= clock[1..][0];
      AccessesMonotone(t, clock[1..]);
      if clock[1..] != [] {
        assert clock[1..][|clock[1..]| - 1] == clock[|clock| - 1];
      }
    }
  }

  type Registry = map<Token, Session>

  /** The registry as the application starts: an empty map. */
  const EmptyRegistry: Registry := map[]

  /** What a call leaves in the registry, with its result or the exception it raised. */
  datatype Stamped<T> = Stamped(registry: Registry, result: Result<T, Error>)

  /** A controller's `getService(token)`: an unknown token fails with InvalidLogin and changes
      nothing; a known token is stamped with `now`, and its service is returned if it implements
      the controller's interface; otherwise the cast fails (WrongRole) after the stamp. */
  function GetService(reg: Registry, token: Token, now: int, role: Role): (r: Stamped<Service>)
    ensures token !in reg ==> r == Stamped(reg, Err(Error(InvalidLogin, TimedOut)))
    ensures token in reg ==>
      && r.registry.Keys == reg.Keys
      && r.registry[token] == Session(reg[token].service, now)
      && (forall t | t in reg && t != token :: r.registry[t] == reg[t])
    ensures r.result.Ok? <==> token in reg && RoleOf(reg[token].service) == role
    ensures r.result.Ok? ==> r.result.value == reg[token].service && RoleOf(r.result.value) == role
    ensures token in reg && RoleOf(reg[token].service) != role ==> r.result.Err? && r.result.error.kind == WrongRole
  {
    if token !in reg then Stamped(reg, Err(Error(InvalidLogin, TimedOut)))
    else
      var session := reg[token].Accessed(now);
      var reg' := reg[token := session];
      if RoleOf(session.service) == role then Stamped(reg', Ok(session.service))
      else Stamped(reg', Err(Error(WrongRole, "class cast of the session's service")))
  }

  /** Within one request every helper calls `getService` at the same instant; once the first
      call has stamped the session, the later ones change nothing and return the same service. */
  lemma GetServiceIdempotent(reg: Registry, token: Token, now: int, role: Role)
    ensures var first := GetService(reg, token, now, role);
            GetService(first.registry, token, now, role) == first
  {
  }
}
