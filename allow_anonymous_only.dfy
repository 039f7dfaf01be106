/**
 * `AllowAnonymousOnlyAttribute` (BrewMaster/Utilities/AllowAnonymousOnlyAttribute.cs):
 * the landing pages are for visitors only. `Logout` always passes; a
 * logged-in session is sent to its own area by role.
 */
module AllowAnonymousOnly {
  import opened Wrappers
  import opened Text
  import opened Mvc
  import opened RoleAuthorize

  /**
   * The redirect the filter sets, if any. The action name is compared with
   * "Logout" ignoring case (the letters of "Logout" have no non-ASCII case
   * variants, so ASCII folding is exact here).
   */
  function AnonymousOnlyRedirect(actionName: Option<string>, sessionRole: Option<string>): Option<RedirectToAction> {
    if EqualsIgnoreCase(actionName, "Logout") then None
    else if IsNullOrEmpty(sessionRole) then None
    else if sessionRole.value == "Admin" then Some(RedirectToAction("Index", "Admin"))
    else if sessionRole.value == "User" then Some(RedirectToAction("Index", "User"))
    else Some(RedirectToAction("Index", "Home"))
  }

  class AllowAnonymousOnlyAttribute {
    constructor()
    {
    }

    /** `OnActionExecuting`: return early for `Logout`; otherwise redirect a logged-in session by role. */
    method OnActionExecuting(context: ActionExecutingContext)
      modifies context
      ensures AnonymousOnlyRedirect(context.actionName, context.sessionRole).None? ==> context.result == old(context.result)
      ensures AnonymousOnlyRedirect(context.actionName, context.sessionRole).Some?
        ==> context.result == AnonymousOnlyRedirect(context.actionName, context.sessionRole)
    {
      if EqualsIgnoreCase(context.actionName, "Logout") {
        return;
      }
      var isLoggedIn := !IsNullOrEmpty(context.sessionRole);
      if isLoggedIn {
        var role := context.sessionRole.value;
        if role == "Admin" {
          context.result := Some(RedirectToAction("Index", "Admin"));
        } else if role == "User" {
          context.result := Some(RedirectToAction("Index", "User"));
        } else {
          context.result := Some(RedirectToAction("Index", "Home"));
        }
      }
    }
  }

  /** `Logout`, in any letter case, is never redirected, whatever the session holds. */
  lemma LogoutNeverRedirected(actionName: string, sessionRole: Option<string>)
    requires ToLower(actionName) == "logout"
    ensures AnonymousOnlyRedirect(Some(actionName), sessionRole).None?
  {
  }

  /** Any other action is redirected exactly when someone is logged in, and the target is the area of the role. */
  lemma RedirectsExactlyLoggedIn(actionName: Option<string>, sessionRole: Option<string>)
    requires !EqualsIgnoreCase(actionName, "Logout")
    ensures AnonymousOnlyRedirect(actionName, sessionRole).Some? <==> !IsNullOrEmpty(sessionRole)
    ensures AnonymousOnlyRedirect(actionName, sessionRole).Some? ==>
      AnonymousOnlyRedirect(actionName, sessionRole).value.action == "Index" &&
      AnonymousOnlyRedirect(actionName, sessionRole).value.controller ==
        (if sessionRole.value in {"Admin", "User"} then sessionRole.value else "Home")
  {
  }

  /**
   * An "Admin" or "User" session that the role gate turns away from the other
   * area lands on Home/Login, where this filter sends it to its own area,
   * whose gate admits it: the two filters reach a page in two redirects.
   */
  lemma KnownRolesReachTheirArea(sessionRole: string, requiredRole: string)
    requires sessionRole in {"Admin", "User"} && requiredRole != sessionRole
    ensures !Admits(requiredRole, Some(sessionRole))
    ensures var r := AnonymousOnlyRedirect(Some(LoginRedirect.action), Some(sessionRole));
      r == Some(RedirectToAction("Index", sessionRole)) && Admits(sessionRole, Some(sessionRole))
  {
    assert ToLower("Login") != "logout" by {
      assert ToLower("Login")[3] == 'i';
    }
  }

  /**
   * Any other non-empty role is sent to Home/Index, and Home/Index sends it to
   * itself again: the redirect is its own fixed point, so such a session can
   * never leave the redirect.
   */
  lemma UnknownRoleRedirectsToItself(sessionRole: string)
    requires sessionRole != "" && sessionRole != "Admin" && sessionRole != "User"
    ensures var r := AnonymousOnlyRedirect(Some("Index"), Some(sessionRole));
      r == Some(RedirectToAction("Index", "Home"))
      && AnonymousOnlyRedirect(Some(r.value.action), Some(sessionRole)) == r
  {
    assert ToLower("Index") != "logout" by {
      assert |ToLower("Index")| == 5;
    }
  }
}
