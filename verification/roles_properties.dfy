/** Properties of the role check across users and role lists. */
module RolesProperties {
  import opened Wrappers
  import opened Roles

  /** With no allowed roles only superusers get through. */
  lemma NoRolesOnlySuperusers(user: Option<User>)
    ensures HasPermission([], user) <==> user.Some? && user.value.isAuthenticated && user.value.isSuperuser
  {
  }

  /** Being a superuser does not help an unauthenticated user. */
  lemma AnonymousSuperuserRefused(allowedRoles: seq<string>, groups: seq<string>)
    ensures !HasPermission(allowedRoles, Some(User(false, true, groups)))
  {
  }

  /** Allowing more roles never takes a permission away. */
  lemma MoreRolesNeverRevoke(allowedRoles: seq<string>, extra: seq<string>, user: Option<User>)
    requires HasPermission(allowedRoles, user)
    ensures HasPermission(allowedRoles + extra, user)
    ensures HasPermission(extra + allowedRoles, user)
  {
  }

  /** Joining more groups never takes a permission away. */
  lemma MoreGroupsNeverRevoke(allowedRoles: seq<string>, u: User, extra: seq<string>)
    requires HasPermission(allowedRoles, Some(u))
    ensures HasPermission(allowedRoles, Some(u.(groups := u.groups + extra)))
  {
  }

  /** The order of the allowed roles does not matter, only which ones. */
  lemma OnlyTheRoleSetMatters(a: seq<string>, b: seq<string>, user: Option<User>)
    requires (set r | r in a) == (set r | r in b)
    ensures HasPermission(a, user) == HasPermission(b, user)
  {
    var sa, sb := set r | r in a, set r | r in b;
    forall role
      ensures role in a <==> role in b
    {
      assert role in a <==> role in sa;
      assert role in b <==> role in sb;
    }
  }
}
