/**
 * `RoleAuthorizeAttribute` (Utilities/RoleAuthorizeAttribute.cs): before an
 * action runs, a session whose "UserRole" is missing, empty or different
 * from the required role is sent to Home/Login.
 */
module RoleAuthorize {
  import opened Wrappers
  import opened Text
  import opened Mvc

  const LoginRedirect: RedirectToAction := RedirectToAction("Login", "Home")

  /** The filter lets the request through: a non-empty session role equal, ordinally, to the required one. */
  predicate Admits(role: string, sessionRole: Option<string>) {
    !(IsNullOrEmpty(sessionRole) || sessionRole.value != role)
  }

  class RoleAuthorizeAttribute {
    const role: string

    constructor(role: string)
      ensures this.role == role
    {
      this.role := role;
    }

    /** `OnActionExecuting`: set the login redirect unless the session holds the role; otherwise leave the result alone. */
    method OnActionExecuting(context: ActionExecutingContext)
      modifies context
      ensures Admits(role, context.sessionRole) ==> context.result == old(context.result)
      ensures !Admits(role, context.sessionRole) ==> context.result == Some(LoginRedirect)
    {
      var sessionRole := context.sessionRole;
      if IsNullOrEmpty(sessionRole) || sessionRole.value != role {
        context.result := Some(LoginRedirect);
      }
    }
  }

  /** The filter admits exactly the sessions holding precisely the required role; an attribute with an empty role admits nobody. */
  lemma AdmitsIff(role: string, sessionRole: Option<string>)
    ensures Admits(role, sessionRole) <==> sessionRole == Some(role) && role != ""
  {
  }

  /**
   * The comparison is ordinal and case-sensitive: a session role that differs
   * from the required one only in letter case ("user" for "User", "ADMIN" for
   * "Admin") is turned away.
   */
  lemma AdmitsIsCaseSensitive(role: string, sessionRole: string)
    requires EqualsIgnoreCase(Some(sessionRole), role) && sessionRole != role
    ensures !Admits(role, Some(sessionRole))
  {
  }
}
