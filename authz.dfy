/** Roles and the guards in front of every protected page and remote function
    (src/lib/server/services/authz.service.ts). A request's `locals` carry the signed-in
    user, if any, and the user's role, if one was loaded. */
module Authz {
  import opened Wrappers
  import opened Schema
  import opened Db

  datatype User = User(id: UserId)

  /** `event.locals`: `user?` and `role?`. */
  datatype Locals = Locals(user: Option<User>, role: Option<Role>)

  /** `roleRank`. */
  function Rank(r: Role): nat {
    match r
    case Citizen => 0
    case Driver => 1
    case Admin => 2
  }

  /** `hasMinimumRole(currentRole, requiredRole)`. */
  function HasMinimumRole(current: Option<Role>, required: Role): (b: bool)
    ensures current.None? ==> !b
    ensures current.Some? ==> (b <==> Rank(current.value) >= Rank(required))
  {
    match current
    case None => false
    case Some(r) => Rank(r) >= Rank(required)
  }

  /** Every role meets itself, an admin meets every requirement, a citizen requirement is met
      by every role, and only an admin meets the admin requirement. */
  lemma HasMinimumRoleOrder(r: Role, required: Role)
    ensures HasMinimumRole(Some(r), r)
    ensures HasMinimumRole(Some(Admin), required)
    ensures HasMinimumRole(Some(r), Citizen)
    ensures HasMinimumRole(Some(r), Admin) <==> r == Admin
    ensures HasMinimumRole(Some(r), Driver) <==> r != Citizen
  {
  }

  /** Meeting a requirement that meets another one meets that one too. */
  lemma HasMinimumRoleTransitive(a: Role, b: Role, c: Role)
    requires HasMinimumRole(Some(a), b) && HasMinimumRole(Some(b), c)
    ensures HasMinimumRole(Some(a), c)
  {
  }

  /** `resolveHomePath(role)`. */
  function ResolveHomePath(role: Option<Role>): (path: string)
    ensures role == Some(Admin) ==> path == "/admin/dashboard"
    ensures role == Some(Driver) ==> path == "/driver/run"
    ensures role != Some(Admin) && role != Some(Driver) ==> path == "/citizen/report"
  {
    if role == Some(Admin) then "/admin/dashboard"
    else if role == Some(Driver) then "/driver/run"
    else "/citizen/report"
  }

  /** Each role has its own home, and a user without a role lands where a citizen does. */
  lemma ResolveHomePathDistinct(a: Role, b: Role)
    ensures ResolveHomePath(Some(a)) == ResolveHomePath(Some(b)) <==> a == b
    ensures ResolveHomePath(None) == ResolveHomePath(Some(Citizen))
  {
  }

  /** The user_role table and its counter after `ensureUserRole(userId)`, with the role it
      returns. */
  function EnsuredRole(userRoles: seq<UserRoleRow>, nextId: int, userId: UserId): (seq<UserRoleRow>, int, Role) {
    match RoleOf(userRoles, userId)
    case Some(existing) => (userRoles, nextId, existing)
    case None => (userRoles + [UserRoleRow(nextId, userId, Citizen)], nextId + 1, Citizen)
  }

  /** After `ensureUserRole` the user has the returned role, an existing role is returned
      unchanged, and a second call writes nothing and returns the same role. */
  lemma EnsuredRoleIdempotent(userRoles: seq<UserRoleRow>, nextId: int, userId: UserId)
    ensures var (t, n, role) := EnsuredRole(userRoles, nextId, userId);
      && RoleOf(t, userId) == Some(role)
      && (RoleOf(userRoles, userId).Some? ==> role == RoleOf(userRoles, userId).value && t == userRoles)
      && (RoleOf(userRoles, userId).None? ==> role == Citizen && |t| == |userRoles| + 1)
      && EnsuredRole(t, n, userId) == (t, n, role)
  {
    var (t, n, role) := EnsuredRole(userRoles, nextId, userId);
    if RoleOf(userRoles, userId).None? {
      RoleOfAppended(userRoles, UserRoleRow(nextId, userId, Citizen));
    }
  }

  lemma {:induction false} RoleOfAppended(userRoles: seq<UserRoleRow>, row: UserRoleRow)
    requires RoleOf(userRoles, row.userId).None?
    ensures RoleOf(userRoles + [row], row.userId) == Some(row.role)
    decreases |userRoles|
  {
    if userRoles != [] {
      assert (userRoles + [row])[1..] == userRoles[1..] + [row];
      RoleOfAppended(userRoles[1..], row);
    }
  }

  /** `ensureUserRole(userId)`. */
  method EnsureUserRole(db: Store, userId: UserId) returns (role: Role)
    requires db.Valid()
    modifies db`userRoles, db`nextUserRoleId
    ensures db.Valid()
    ensures (db.userRoles, db.nextUserRoleId, role) == EnsuredRole(old(db.userRoles), old(db.nextUserRoleId), userId)
  {
    var existing := RoleOf(db.userRoles, userId);
    if existing.Some? {
      return existing.value;
    }
    var _ := db.InsertUserRole(userId, Citizen);
    role := Citizen;
  }

  /** `requireUser(event)`. */
  function RequireUser(locals: Locals): (r: Result<User>)
    ensures locals.user.None? <==> r == Err(HttpError(401, "You need to sign in."))
    ensures locals.user.Some? ==> r == Ok(locals.user.value)
  {
    match locals.user
    case None => Err(HttpError(401, "You need to sign in."))
    case Some(u) => Ok(u)
  }

  /** `requireRole(event, role)`. */
  function RequireRole(locals: Locals, required: Role): (r: Result<User>)
    ensures locals.user.None? ==> r == Err(HttpError(401, "You need to sign in."))
    ensures locals.user.Some? && !HasMinimumRole(locals.role, required) ==>
      r == Err(HttpError(403, "You do not have permission."))
    ensures locals.user.Some? && HasMinimumRole(locals.role, required) ==> r == Ok(locals.user.value)
  {
    var user :- RequireUser(locals);
    if !HasMinimumRole(locals.role, required) then Err(HttpError(403, "You do not have permission."))
    else Ok(user)
  }

  /** The role guard implies the sign-in guard, and passing a stricter requirement passes
      a weaker one with the same user. */
  lemma RequireRoleStrengthens(locals: Locals, strict: Role, weak: Role)
    requires Rank(strict) >= Rank(weak)
    ensures RequireRole(locals, strict).Ok? ==> RequireUser(locals) == RequireRole(locals, strict)
    ensures RequireRole(locals, strict).Ok? ==> RequireRole(locals, weak) == RequireRole(locals, strict)
  {
  }

  /** `requireSessionRedirect(event, path = '/login')`. */
  function RequireSessionRedirect(locals: Locals, path: Option<string>): (r: Result<()>)
    ensures locals.user.None? <==> r == Err(Redirect(302, path.GetOr("/login")))
    ensures locals.user.Some? <==> r == Ok(())
  {
    if locals.user.None? then Err(Redirect(302, path.GetOr("/login"))) else Ok(())
  }

  /** `requireRoleRedirect(event, role, path = '/')`: the session check runs first with its
      own default, so a missing session goes to /login whatever `path` is. */
  function RequireRoleRedirect(locals: Locals, required: Role, path: Option<string>): (r: Result<()>)
    ensures locals.user.None? ==> r == Err(Redirect(302, "/login"))
    ensures locals.user.Some? && !HasMinimumRole(locals.role, required) ==> r == Err(Redirect(302, path.GetOr("/")))
    ensures locals.user.Some? && HasMinimumRole(locals.role, required) ==> r == Ok(())
  {
    var _ :- RequireSessionRedirect(locals, None);
    if !HasMinimumRole(locals.role, required) then Err(Redirect(302, path.GetOr("/"))) else Ok(())
  }

  /** The redirecting guard lets through exactly the requests the erroring guard lets through. */
  lemma RedirectGuardAgrees(locals: Locals, required: Role, path: Option<string>)
    ensures RequireRoleRedirect(locals, required, path).Ok? <==> RequireRole(locals, required).Ok?
    ensures RequireSessionRedirect(locals, path).Ok? <==> RequireUser(locals).Ok?
  {
  }
}
