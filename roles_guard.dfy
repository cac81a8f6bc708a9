/** `RolesGuard.canActivate`: the role-membership decision for routes marked with required roles. */
module RolesGuard {
  import opened Wrappers

  /** The authenticated user attached to the request; its `role` may be missing. */
  datatype RequestUser = RequestUser(role: Option<string>)

  /** `list.includes(x)`, scanning from the front. */
  function Includes(list: seq<string>, x: string): (found: bool)
    ensures found <==> exists i :: 0 <= i < |list| && list[i] == x
  {
    if list == [] then false
    else list[0] == x || Includes(list[1..], x)
  }

  /**
   * No required-roles metadata grants access to anyone; otherwise access needs
   * a user whose role is one of the required roles.
   */
  function CanActivate(required: Option<seq<string>>, user: Option<RequestUser>): (granted: bool)
    ensures required.None? ==> granted
    ensures required.Some? ==>
      (granted <==> user.Some? && user.value.role.Some? && user.value.role.value in required.value)
  {
    required.None? || (user.Some? && user.value.role.Some? && Includes(required.value, user.value.role.value))
  }

  /** An empty required list is truthy metadata that no role is in: everyone is denied. */
  lemma EmptyRequiredDeniesAll(user: Option<RequestUser>)
    ensures !CanActivate(Some([]), user)
  {
  }

  /** With roles required, a request without a user is denied. */
  lemma MissingUserDenied(required: seq<string>)
    ensures !CanActivate(Some(required), None)
  {
  }

  /** Adding roles to the required list never turns a grant into a denial. */
  lemma MoreRolesKeepGrant(required: seq<string>, extra: seq<string>, user: Option<RequestUser>)
    requires CanActivate(Some(required), user)
    ensures CanActivate(Some(required + extra), user)
    ensures CanActivate(Some(extra + required), user)
  {
    var role := user.value.role.value;
    var i :| 0 <= i < |required| && required[i] == role;
    assert (required + extra)[i] == role;
    assert (extra + required)[|extra| + i] == role;
  }
}
