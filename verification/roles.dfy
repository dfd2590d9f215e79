/** The role-based permission check `HasRole(allowed_roles)`: a request is
    let through when its user is authenticated and is a superuser or
    belongs to a group named by one of the allowed roles. */
module Roles {
  import opened Wrappers

  /** The parts of the request's user the check reads; `groups` are the
      names of the user's groups. */
  datatype User = User(isAuthenticated: bool, isSuperuser: bool, groups: seq<string>)

  /** `any(role in held for role in allowed)`, scanning `allowed` in order. */
  function AnyRoleHeld(allowed: seq<string>, held: seq<string>): (found: bool)
    ensures found <==> exists i :: 0 <= i < |allowed| && allowed[i] in held
    decreases |allowed|
  {
    if allowed == [] then false
    else if allowed[0] in held then true
    else
      var rest := AnyRoleHeld(allowed[1..], held);
      assert forall i :: 1 <= i < |allowed| ==> allowed[i] == allowed[1..][i - 1];
      rest
  }

  /** `has_permission`: no user or an anonymous one is refused, a superuser
      is let through whatever the roles, and anyone else needs one of the
      allowed roles among their groups. */
  function HasPermission(allowedRoles: seq<string>, user: Option<User>): (ok: bool)
    ensures ok <==>
      && user.Some? && user.value.isAuthenticated
      && (user.value.isSuperuser
          || exists role :: role in allowedRoles && role in user.value.groups)
  {
    if user.None? || !user.value.isAuthenticated then false
    else if user.value.isSuperuser then true
    else AnyRoleHeld(allowedRoles, user.value.groups)
  }
}
