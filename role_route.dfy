/**
 * The client's session user and the route guard of its pages: without a
 * session the guard sends the visitor to the login page; an empty list of
 * required roles admits every logged-in user; otherwise the user must hold
 * one of the listed roles or is sent to the home page.
 */
module ClientAuth {
  import opened Wrappers

  /**
   * The logged-in user as the client keeps it: e-mail from the token, and
   * roles, name and id from the profile request (the roles start empty and
   * name and id may be missing).
   */
  datatype SessionUser = SessionUser(id: Option<string>, email: Option<string>, name: Option<string>, roles: seq<string>)

  predicate IsAdmin(u: SessionUser) { "admin" in u.roles }
  predicate IsWriter(u: SessionUser) { "writer" in u.roles }
  predicate IsManager(u: SessionUser) { "manager" in u.roles }

  /** `required.some(r => held.includes(r))`. */
  function AnyIn(required: seq<string>, held: seq<string>): (b: bool)
    ensures b <==> exists i :: 0 <= i < |required| && required[i] in held
  {
    if required == [] then false
    else if required[0] in held then true
    else
      var b := AnyIn(required[1..], held);
      assert forall i :: 1 <= i < |required| ==> required[i] == required[1..][i - 1];
      b
  }

  datatype Outcome = RedirectLogin | Render | RedirectHome

  function RoleRoute(user: Option<SessionUser>, roles: seq<string>): (r: Outcome)
    ensures user.None? ==> r == RedirectLogin
    ensures user.Some? && roles == [] ==> r == Render
    ensures user.Some? ==> (r == Render <==> roles == [] || exists i :: 0 <= i < |roles| && roles[i] in user.value.roles)
    ensures user.Some? ==> r != RedirectLogin
  {
    if user.None? then RedirectLogin
    else if |roles| == 0 then Render
    else if !AnyIn(roles, user.value.roles) then RedirectHome
    else Render
  }

  /** Holding more roles never turns a granted page into a redirect. */
  lemma {:induction false} RoleRouteMonotone(u: SessionUser, more: seq<string>, roles: seq<string>)
    requires forall r :: r in u.roles ==> r in more
    requires RoleRoute(Some(u), roles) == Render
    ensures RoleRoute(Some(u.(roles := more)), roles) == Render
  {
    if roles != [] {
      var i :| 0 <= i < |roles| && roles[i] in u.roles;
      assert roles[i] in more;
    }
  }
}
