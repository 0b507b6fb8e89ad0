/** The route guard around protected pages: a redirect effect and a render
    decision, both functions of the session flags, the required roles and
    the current path. `hasPermission` (from the `useAuth` hook) and
    `encodeURIComponent` are parameters. */
module AuthGuard {
  import opened Wrappers
  import opened Seqs

  const DefaultRedirectTo := "/login"
  const Unauthorized := "/unauthorized"

  /** The props as passed; an absent prop takes its default, a supplied one
      is used as given. */
  datatype GuardProps = GuardProps(requiredRoles: Option<seq<string>>, redirectTo: Option<string>)

  function RequiredRoles(props: GuardProps): (roles: seq<string>)
    ensures props.requiredRoles.None? ==> roles == []
    ensures props.requiredRoles.Some? ==> roles == props.requiredRoles.value
  {
    props.requiredRoles.GetOr([])
  }

  function RedirectTo(props: GuardProps): (target: string)
    ensures props.redirectTo.None? ==> target == DefaultRedirectTo
    ensures props.redirectTo.Some? ==> target == props.redirectTo.value
  {
    props.redirectTo.GetOr(DefaultRedirectTo)
  }

  /** The session flags the guard reads. */
  datatype Session = Session(isLoading: bool, isAuthenticated: bool)

  /** `requiredRoles.some((role) => hasPermission(role))`. */
  predicate Permitted(roles: seq<string>, hasPermission: string -> bool) {
    Any(roles, hasPermission)
  }

  /** The role check fails: some role is required and none is permitted. */
  predicate Forbidden(roles: seq<string>, hasPermission: string -> bool) {
    |roles| > 0 && !Permitted(roles, hasPermission)
  }

  /** The URL the effect pushes, if any. */
  function Redirect(session: Session, props: GuardProps, pathname: string,
                    hasPermission: string -> bool, encode: string -> string): (url: Option<string>)
    ensures session.isLoading ==> url.None?
    ensures !session.isLoading && !session.isAuthenticated ==>
              url == Some(RedirectTo(props) + "?returnUrl=" + encode(pathname))
    ensures !session.isLoading && session.isAuthenticated ==>
              (url == Some(Unauthorized) <==>
                 |RequiredRoles(props)| > 0
                 && forall i :: 0 <= i < |RequiredRoles(props)| ==> !hasPermission(RequiredRoles(props)[i]))
    ensures !session.isLoading && session.isAuthenticated && url.Some? ==> url == Some(Unauthorized)
  {
    if !session.isLoading && !session.isAuthenticated then
      Some(RedirectTo(props) + "?returnUrl=" + encode(pathname))
    else if !session.isLoading && session.isAuthenticated && Forbidden(RequiredRoles(props), hasPermission) then
      Some(Unauthorized)
    else
      None
  }

  /** What the component renders. */
  datatype View = Spinner | Nothing | Children

  function Render(session: Session, props: GuardProps, hasPermission: string -> bool): (v: View)
    ensures session.isLoading <==> v == Spinner
    ensures v == Children <==>
              && !session.isLoading && session.isAuthenticated
              && (|RequiredRoles(props)| == 0
                  || exists i :: 0 <= i < |RequiredRoles(props)| && hasPermission(RequiredRoles(props)[i]))
  {
    if session.isLoading then Spinner
    else if !session.isAuthenticated || Forbidden(RequiredRoles(props), hasPermission) then Nothing
    else Children
  }

  /** The effect and the render agree: children appear exactly when the
      guard is settled and does not redirect, and nothing is rendered
      exactly when it redirects. */
  lemma RenderAgreesWithRedirect(session: Session, props: GuardProps, pathname: string,
                                 hasPermission: string -> bool, encode: string -> string)
    ensures var url := Redirect(session, props, pathname, hasPermission, encode);
            var v := Render(session, props, hasPermission);
            && (v == Children <==> !session.isLoading && url.None?)
            && (v == Nothing <==> url.Some?)
  {
  }

  /** A doctor's session on a page that requires "admin" is sent to
      "/unauthorized" and sees nothing, whatever the path. */
  lemma DoctorOnAdminPage(pathname: string, encode: string -> string, hasPermission: string -> bool)
    requires !hasPermission("admin")
    ensures var props := GuardProps(Some(["admin"]), None);
            var session := Session(false, true);
            && Redirect(session, props, pathname, hasPermission, encode) == Some(Unauthorized)
            && Render(session, props, hasPermission) == Nothing
  {
  }

  /** With the default props a signed-out visitor goes to the login page with
      the encoded path as the return target. */
  lemma SignedOutGoesToLogin(pathname: string, encode: string -> string, hasPermission: string -> bool)
    ensures Redirect(Session(false, false), GuardProps(None, None), pathname, hasPermission, encode)
         == Some("/login?returnUrl=" + encode(pathname))
  {
    assert DefaultRedirectTo + "?returnUrl=" == "/login?returnUrl=";
  }
}
