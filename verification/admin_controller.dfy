/**
  The role gates the admin controller adds on top of the services: the two
  admin-creation entry points, the SUPERADMIN-only game deletion, and the
  gate in front of promoting a user to admin. The gates read the role of
  the account the authentication middleware attached to the request.
 */
module AdminController {
  import opened Common
  import opened GameModel
  import opened UserModel
  import opened Database
  import opened Auth
  import opened AdminServices

  /** The role of the account a request carries (`req.user?.role`). */
  function AccountRole(a: Option<Account>): (r: Option<Role>)
    ensures a.None? <==> r.None?
    ensures a.Some? && a.value.UserAccount? ==> r == Some(a.value.user.role)
    ensures a.Some? && a.value.AdminAccount? ==> r == Some(a.value.admin.role)
  {
    match a
    case None => None
    case Some(UserAccount(_, u)) => Some(u.role)
    case Some(AdminAccount(_, ad)) => Some(ad.role)
  }

  /** `createSuperAdmin`: the creation service with no creator, which can
      only bootstrap the first SUPERADMIN. */
  function CreateSuperAdmin(s: Store, p: AdminInput): (r: Result<(Store, Id)>)
    ensures r.Err? ==> r.kind == ServiceUnavailable
    ensures r.Ok? ==> !HasVisibleSuperAdmin(s) && r.value.1 == s.nextId && s.nextId in r.value.0.admins
                      && r.value.0.admins[s.nextId].role == SUPERADMIN
    ensures r.Ok? <==>
              && !HasVisibleSuperAdmin(s) && ParseRole(p.role) == Some(SUPERADMIN)
              && Truthy(p.name) && Truthy(p.email) && Truthy(p.password)
              && !EmailTaken(s, p.email.value)
  {
    CreateAdmin(s, p, None)
  }

  /** `createAdmin`: the caller's id is required and becomes the creator. */
  function CreateAdminByCaller(s: Store, p: AdminInput, callerId: Option<Id>): (r: Result<(Store, Id)>)
    ensures r.Err? ==> r.kind == Unauthorized || r.kind == ServiceUnavailable
    ensures r.Err? && r.kind == Unauthorized <==> callerId.None?
    ensures r.Ok? && HasVisibleSuperAdmin(s) ==>
              && callerId.Some? && callerId.value in s.admins && s.admins[callerId.value].role == SUPERADMIN
              && s.nextId in r.value.0.admins && r.value.0.admins[s.nextId].role == ADMIN
    ensures r.Ok? <==>
              && callerId.Some?
              && Truthy(p.name) && Truthy(p.email) && Truthy(p.password)
              && !EmailTaken(s, p.email.value)
              && if HasVisibleSuperAdmin(s) then ParseRole(p.role) == Some(ADMIN) && IsSuperAdminCreator(s, callerId)
                 else ParseRole(p.role) == Some(SUPERADMIN)
  {
    if callerId.None? then Err(Unauthorized) else CreateAdmin(s, p, callerId)
  }

  /** `deleteGameByAdmin`: only a SUPERADMIN may delete a game. */
  function DeleteGameByAdmin(s: Store, caller: Option<Account>, gameId: Id): (r: Result<Store>)
    ensures r.Err? && r.kind == Forbidden <==> AccountRole(caller) != Some(SUPERADMIN)
    ensures r.Err? && r.kind == NotFound <==> AccountRole(caller) == Some(SUPERADMIN) && FindGame(s.games, gameId).None?
    ensures r.Ok? ==> AccountRole(caller) == Some(SUPERADMIN) && r.value == s.(games := s.games - {gameId})
    ensures AccountRole(caller) == Some(SUPERADMIN) && FindGame(s.games, gameId).Some? ==> r.Ok?
  {
    if AccountRole(caller) != Some(SUPERADMIN) then Err(Forbidden) else DeleteGame(s, gameId)
  }

  /** The gate of `updateUserToAdmin`: ADMIN and USER callers are refused;
      any other caller, including one without a role, passes. */
  function UpdateUserToAdminGate(caller: Option<Account>): (r: Outcome)
    ensures r.Fail? <==> AccountRole(caller) == Some(ADMIN) || AccountRole(caller) == Some(USER)
    ensures r.Fail? ==> r.kind == Forbidden
  {
    var role := AccountRole(caller);
    if role == Some(ADMIN) || role == Some(USER) then Fail(Forbidden) else Pass
  }

  /** The game-deletion route admits ADMIN and SUPERADMIN tokens, but an
      ADMIN account that gets past the middleware is still refused. */
  lemma AdminCannotDeleteGame(s: Store, header: Option<string>, verify: map<string, Claims>, gameId: Id)
    requires Authenticate(s, header, verify, [ADMIN, SUPERADMIN]).Ok?
    requires AccountRole(Some(Authenticate(s, header, verify, [ADMIN, SUPERADMIN]).value)) == Some(ADMIN)
    ensures DeleteGameByAdmin(s, Some(Authenticate(s, header, verify, [ADMIN, SUPERADMIN]).value), gameId) == Err(Forbidden)
  {
  }
}
