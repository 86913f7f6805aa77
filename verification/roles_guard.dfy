/** The back end's role guard: the roles a route requires come from the
  * handler's metadata, else the controller's, and the request's role must
  * be one of them. */
module RolesGuard {
  import opened Wrappers
  import opened JsStrings
  import opened HttpErrors

  /** `getAllAndOverride`: the first of the handler's and the class's role
    * lists that is defined. */
  function RequiredRoles(handler: Option<seq<string>>, cls: Option<seq<string>>): (r: Option<seq<string>>)
    ensures handler.Some? ==> r == handler
    ensures handler.None? ==> r == cls
  {
    if handler.Some? then handler else cls
  }

  function Denied(required: seq<string>, role: string): HttpError {
    Forbidden("Access denied. Required role(s): " + Join(required, ", ") + ". Your role: " + role)
  }

  /** `canActivate`: no required roles lets every request through; a
    * request with no role is refused; otherwise the role must be listed. */
  function CanActivate(handler: Option<seq<string>>, cls: Option<seq<string>>, role: Option<string>): (r: Result<bool, HttpError>)
    ensures r.Ok? ==> r.value
    ensures r.Ok? <==> RequiredRoles(handler, cls).None?
                       || (Truthy(role) && role.value in RequiredRoles(handler, cls).value)
    ensures RequiredRoles(handler, cls).Some? && !Truthy(role) ==> r == Err(Forbidden("User role not found"))
    ensures (&& RequiredRoles(handler, cls).Some? && Truthy(role)
             && role.value !in RequiredRoles(handler, cls).value) ==>
              r == Err(Denied(RequiredRoles(handler, cls).value, role.value))
    ensures r.Err? ==> r.error.status == 403
  {
    var required := RequiredRoles(handler, cls);
    if required.None? then Ok(true)
    else if !Truthy(role) then Err(Forbidden("User role not found"))
    else if role.value !in required.value then Err(Denied(required.value, role.value))
    else Ok(true)
  }

  /** Roles on the handler replace those on the controller, even when they
    * are fewer: a handler can narrow or widen its controller's roles. */
  lemma HandlerOverridesClass(handler: seq<string>, cls1: Option<seq<string>>, cls2: Option<seq<string>>, role: Option<string>)
    ensures CanActivate(Some(handler), cls1, role) == CanActivate(Some(handler), cls2, role)
  {
  }

  /** An empty role list is defined, so it is not "no requirement": it
    * refuses every request. */
  lemma EmptyRoleListRefusesAll(cls: Option<seq<string>>, role: Option<string>)
    ensures CanActivate(Some([]), cls, role).Err?
  {
  }

  /** Adding roles to the required list never refuses a request that was
    * let through. */
  lemma MoreRolesAdmitMore(required: seq<string>, extra: seq<string>, role: Option<string>)
    ensures CanActivate(Some(required), None, role).Ok? ==> CanActivate(Some(required + extra), None, role).Ok?
  {
    if CanActivate(Some(required), None, role).Ok? {
      assert role.value in required + extra;
    }
  }
}
