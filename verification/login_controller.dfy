/** `LoginController`: login stores the new session under a generated token, logout removes the
    token, and `getlastAccessed` stamps and reports a session's last access. */
module LoginController {
  import opened Common
  import opened Errors
  import opened Repository
  import opened Sessions
  import opened Tokens
  import CouponSystem

  /** `login`: authenticate first; only then generate a token and `put` the session under it.
      `put` overwrites: there is no check that the token is not already in use. */
  function Login(reg: Registry, st: Store, email: string, password: string, kind: string, now: int,
                 uuid: string): (r: Stamped<Token>)
    requires IsRandomUuid(uuid)
    ensures CouponSystem.Login(st, email, password, kind, now).Err? ==>
      r == Stamped(reg, Err(CouponSystem.Login(st, email, password, kind, now).error))
    ensures CouponSystem.Login(st, email, password, kind, now).Ok? ==> r.result == Ok(GenerateToken(uuid))
    ensures r.result.Ok? ==>
      && r.result.value == GenerateToken(uuid)
      && r.result.value[12] == '4'
      && r.registry == reg[r.result.value := CouponSystem.Login(st, email, password, kind, now).value]
      && r.registry[r.result.value].lastAccessedMillis == now
  {
    match CouponSystem.Login(st, email, password, kind, now)
    case Err(e) => Stamped(reg, Err(e))
    case Ok(session) =>
      var token := GenerateToken(uuid);
      Stamped(reg[token := session], Ok(token))
  }

  /** `logout`: removes the token if present; every other entry stays as it was. */
  function Logout(reg: Registry, token: Token): (r: Registry)
    ensures token !in r
    ensures r.Keys == reg.Keys - {token}
    ensures forall t | t in r :: r[t] == reg[t]
  {
    reg - {token}
  }

  /** `getlastAccessed`: an unknown token fails with InvalidLogin and changes nothing; a known
      token is stamped with `now`, which is what the call returns. */
  function GetLastAccessed(reg: Registry, token: Token, now: int): (r: Stamped<int>)
    ensures token !in reg ==> r == Stamped(reg, Err(Error(InvalidLogin, TimedOut)))
    ensures token in reg ==>
      && r.result == Ok(now)
      && r.registry.Keys == reg.Keys
      && r.registry[token] == Session(reg[token].service, now)
      && (forall t | t in reg && t != token :: r.registry[t] == reg[t])
  {
    if token !in reg then Stamped(reg, Err(Error(InvalidLogin, TimedOut)))
    else
      var session := reg[token].Accessed(now);
      Stamped(reg[token := session], Ok(session.lastAccessedMillis))
  }

  /** Logging out twice is logging out once; logging out an unknown token changes nothing. */
  lemma LogoutIdempotent(reg: Registry, token: Token)
    ensures Logout(Logout(reg, token), token) == Logout(reg, token)
    ensures token !in reg ==> Logout(reg, token) == reg
  {
  }

  /** After logout the token is refused by every controller until a login issues it again. */
  lemma LogoutRevokes(reg: Registry, token: Token, now: int, role: Role)
    ensures GetService(Logout(reg, token), token, now, role).result == Err(Error(InvalidLogin, TimedOut))
    ensures GetLastAccessed(Logout(reg, token), token, now).result == Err(Error(InvalidLogin, TimedOut))
  {
  }

  /** A generated token that is already in use replaces the session stored under it: the old
      session is gone and the registry does not grow. */
  lemma LoginOverwrites(reg: Registry, st: Store, email: string, password: string, kind: string,
                        now: int, uuid: string)
    requires IsRandomUuid(uuid)
    requires GenerateToken(uuid) in reg
    requires CouponSystem.Login(st, email, password, kind, now).Ok?
    ensures var r := Login(reg, st, email, password, kind, now, uuid);
            && r.registry.Keys == reg.Keys
            && r.registry[GenerateToken(uuid)] == CouponSystem.Login(st, email, password, kind, now).value
  {
  }

  /** The token returned by a successful login resolves, in the controller of the matching role,
      to the service the login bound; the session is stamped again at the resolving time. */
  lemma LoginThenResolve(reg: Registry, st: Store, email: string, password: string, kind: string,
                         now: int, uuid: string, later: int)
    requires IsRandomUuid(uuid)
    requires CouponSystem.Login(st, email, password, kind, now).Ok?
    ensures var l := Login(reg, st, email, password, kind, now, uuid);
            var service := CouponSystem.Login(st, email, password, kind, now).value.service;
            var g := GetService(l.registry, l.result.value, later, RoleOf(service));
            g.result == Ok(service) && g.registry[l.result.value].lastAccessedMillis == later
  {
  }
}
