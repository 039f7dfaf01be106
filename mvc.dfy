/**
 * The few ASP.NET Core MVC pieces the filters and controllers touch: a
 * redirect result, and the action context a filter reads the route and the
 * session from and may set a result on.
 */
module Mvc {
  import opened Wrappers

  /** `new RedirectToActionResult(action, controller, null)`. */
  datatype RedirectToAction = RedirectToAction(action: string, controller: string)

  /** `ActionExecutingContext`: the route's action name, the session's "UserRole", and the result a filter may set. */
  class ActionExecutingContext {
    const actionName: Option<string>
    const sessionRole: Option<string>
    var result: Option<RedirectToAction>

    constructor(actionName: Option<string>, sessionRole: Option<string>)
      ensures this.actionName == actionName && this.sessionRole == sessionRole && result.None?
    {
      this.actionName := actionName;
      this.sessionRole := sessionRole;
      result := None;
    }
  }
}
