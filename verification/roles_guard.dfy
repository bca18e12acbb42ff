/** The role guard in front of the admin endpoints. */
module RolesGuard {
  import opened Common
  import opened Entities

  /** The request's user as the token strategy attaches it. */
  datatype Principal = Principal(userId: Id, username: string, role: UserRole)

  /** `requiredRoles.some(role => user?.role === role)`. */
  function SomeRoleMatches(requiredRoles: seq<UserRole>, user: Option<Principal>): bool
    decreases |requiredRoles|
  {
    |requiredRoles| > 0
    && ((user.Some? && user.value.role == requiredRoles[0]) || SomeRoleMatches(requiredRoles[1..], user))
  }

  /** `canActivate`: no `@Roles` metadata lets every request through; otherwise
      the user must hold one of the listed roles, or the guard throws
      Forbidden. The guard never answers `false`. */
  function CanActivate(requiredRoles: Option<seq<UserRole>>, user: Option<Principal>): (r: Result<bool, Error>)
    ensures requiredRoles.None? ==> r == Success(true)
    ensures r.Success? ==> r.value
    ensures r.Success? <==> requiredRoles.None? || (user.Some? && user.value.role in requiredRoles.value)
    ensures r.Failure? ==> r.error == Forbidden
  {
    if requiredRoles.None? then Success(true)
    else
      var hasRole := SomeRoleMatches(requiredRoles.value, user);
      SomeRoleMatchesMeaning(requiredRoles.value, user);
      if !hasRole then Failure(Forbidden) else Success(true)
  }

  lemma {:induction false} SomeRoleMatchesMeaning(requiredRoles: seq<UserRole>, user: Option<Principal>)
    ensures SomeRoleMatches(requiredRoles, user) <==> user.Some? && user.value.role in requiredRoles
    decreases |requiredRoles|
  {
    if |requiredRoles| > 0 {
      SomeRoleMatchesMeaning(requiredRoles[1..], user);
      assert requiredRoles == [requiredRoles[0]] + requiredRoles[1..];
    }
  }

  /** An empty role list, or a request without a user, is refused. */
  lemma EmptyRolesOrNoUserDenied(requiredRoles: seq<UserRole>, user: Option<Principal>)
    requires |requiredRoles| == 0 || user.None?
    ensures CanActivate(Some(requiredRoles), user) == Failure(Forbidden)
  {
  }
}
