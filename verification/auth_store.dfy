/** The client session store: the current user, the token, and the flags the
    login screens show. Each action is a pure transition; the `fetch` answer
    an action awaits is an input (`LoginReply`, `RefreshReply`). */
module AuthStore {
  import opened Wrappers
  import opened Text
  import opened Accounts
  import opened Transport

  datatype AuthState = AuthState(
    user: Option<PublicUser>,
    token: Option<string>,
    isAuthenticated: bool,
    isLoading: bool,
    error: Option<string>)

  const Initial := AuthState(None, None, false, false, None)

  const LoginRejected := "登录失败"
  const LoginFailed := "登录过程中发生错误"

  /** What the store writes to storage (`partialize`). */
  datatype Persisted = Persisted(user: Option<PublicUser>, token: Option<string>, isAuthenticated: bool)

  function Partialize(s: AuthState): (p: Persisted)
    ensures p.user == s.user && p.token == s.token
    ensures p.isAuthenticated == s.isAuthenticated
  {
    Persisted(s.user, s.token, s.isAuthenticated)
  }

  /** Rehydration: the stored record merged over the initial state; the
      transient `isLoading` and `error` start from their initial values. */
  function Hydrate(p: Persisted): (s: AuthState)
    ensures Partialize(s) == p
    ensures s.isLoading == Initial.isLoading && s.error == Initial.error
  {
    AuthState(p.user, p.token, p.isAuthenticated, false, None)
  }

  /** Only the session fields are stored: the transient fields never reach
      storage, and storing then rehydrating loses exactly them. */
  lemma HydrateAfterPartialize(s: AuthState, loading: bool, error: Option<string>)
    ensures Partialize(s.(isLoading := loading, error := error)) == Partialize(s)
    ensures Partialize(s) == Partialize(Initial) <==> s.user.None? && s.token.None? && !s.isAuthenticated
    ensures Hydrate(Partialize(s)) == s <==> !s.isLoading && s.error.None?
  {
  }

  // ---------------------------------------------------------------------------
  // login

  /** The answer of `POST /api/auth/login`, as the store sees it. */
  datatype LoginReply = LoginOk(user: PublicUser, token: string) | LoginError(failure: Failure)

  /** How an async action ends for its caller: it returns, or it rethrows. */
  datatype Completion = Returned | Rethrown(thrown: Thrown)

  /** The first `set`, before the request: loading on, old error cleared,
      session fields untouched. */
  function LoginStart(s: AuthState): (r: AuthState)
    ensures r.isLoading && r.error.None?
    ensures Partialize(r) == Partialize(s)
  {
    s.(isLoading := true, error := None)
  }

  /** The whole action: start, await the reply, then settle. */
  function Login(s: AuthState, reply: LoginReply): (r: (AuthState, Completion))
    ensures reply.LoginOk? ==>
              r == (AuthState(Some(reply.user), Some(reply.token), true, false, None), Returned)
    ensures reply.LoginError? ==>
              && Partialize(r.0) == Partialize(s)
              && !r.0.isLoading
              && r.1 == Rethrown(Raise(reply.failure, LoginRejected))
              && r.0.error == Some(Caught(r.1.thrown, LoginFailed))
  {
    var started := LoginStart(s);
    match reply
    case LoginOk(user, token) =>
      (started.(user := Some(user), token := Some(token), isAuthenticated := true, isLoading := false), Returned)
    case LoginError(f) =>
      var thrown := Raise(f, LoginRejected);
      (started.(isLoading := false, error := Some(Caught(thrown, LoginFailed))), Rethrown(thrown))
  }

  // ---------------------------------------------------------------------------
  // logout, refreshToken, updateUser, clearError

  /** Clears the session fields; leaves `isLoading` and `error` alone. */
  function Logout(s: AuthState): (r: AuthState)
    ensures Partialize(r) == Persisted(None, None, false)
    ensures r.isLoading == s.isLoading && r.error == s.error
  {
    s.(user := None, token := None, isAuthenticated := false)
  }

  /** The answer of `POST /api/auth/refresh`. */
  datatype RefreshReply = Refreshed(token: string) | RefreshError(failure: Failure)

  /** `refreshToken`: `false` without a (truthy) token and on any failure,
      with the state unchanged; never rethrows. On success only the token
      and the flag change. */
  function RefreshToken(s: AuthState, reply: RefreshReply): (r: (AuthState, bool))
    ensures !Truthy(s.token) ==> r == (s, false)
    ensures reply.RefreshError? ==> r == (s, false)
    ensures r.1 <==> Truthy(s.token) && reply.Refreshed?
    ensures r.1 ==> r.0 == s.(token := Some(reply.token), isAuthenticated := true)
  {
    if !Truthy(s.token) then (s, false)
    else
      match reply
      case Refreshed(token) => (s.(token := Some(token), isAuthenticated := true), true)
      case RefreshError(_) => (s, false)
  }

  /** A `Partial<User>`: a field is `Some` when the key is present. The two
      optional fields can be overwritten with an absent value. */
  datatype UserPatch = UserPatch(
    id: Option<string>,
    email: Option<string>,
    name: Option<string>,
    role: Option<string>,
    department: Option<Option<string>>,
    avatar: Option<Option<string>>)

  const EmptyPatch := UserPatch(None, None, None, None, None, None)

  /** `{ ...user, ...patch }`. */
  function Merge(u: PublicUser, p: UserPatch): PublicUser {
    PublicUser(
      p.id.GetOr(u.id),
      p.email.GetOr(u.email),
      p.name.GetOr(u.name),
      p.role.GetOr(u.role),
      p.department.GetOr(u.department),
      p.avatar.GetOr(u.avatar))
  }

  /** `{ ...p, ...q }` on patches: the keys of `q` win. */
  function Overlay(p: UserPatch, q: UserPatch): UserPatch {
    UserPatch(
      if q.id.Some? then q.id else p.id,
      if q.email.Some? then q.email else p.email,
      if q.name.Some? then q.name else p.name,
      if q.role.Some? then q.role else p.role,
      if q.department.Some? then q.department else p.department,
      if q.avatar.Some? then q.avatar else p.avatar)
  }

  /** Spreading behaves as an overwrite: the empty patch changes nothing,
      a patch applied twice acts once, and two patches in a row act as
      their overlay. */
  lemma MergeLaws(u: PublicUser, p: UserPatch, q: UserPatch)
    ensures Merge(u, EmptyPatch) == u
    ensures Merge(Merge(u, p), p) == Merge(u, p)
    ensures Merge(Merge(u, p), q) == Merge(u, Overlay(p, q))
  {
  }

  /** `updateUser`: a no-op without a user; otherwise supplied fields win,
      the rest are kept, and nothing but `user` changes. */
  function UpdateUser(s: AuthState, p: UserPatch): (r: AuthState)
    ensures s.user.None? ==> r == s
    ensures s.user.Some? ==> r.user.Some?
    ensures s.user.Some? ==>
              var u, v := s.user.value, r.user.value;
              && (p.id.Some? ==> v.id == p.id.value)
              && (p.id.None? ==> v.id == u.id)
              && (p.email.Some? ==> v.email == p.email.value)
              && (p.email.None? ==> v.email == u.email)
              && (p.name.Some? ==> v.name == p.name.value)
              && (p.name.None? ==> v.name == u.name)
              && (p.role.Some? ==> v.role == p.role.value)
              && (p.role.None? ==> v.role == u.role)
              && (p.department.Some? ==> v.department == p.department.value)
              && (p.department.None? ==> v.department == u.department)
              && (p.avatar.Some? ==> v.avatar == p.avatar.value)
              && (p.avatar.None? ==> v.avatar == u.avatar)
              && (p == EmptyPatch ==> v == u)
    ensures r.token == s.token && r.isAuthenticated == s.isAuthenticated
    ensures r.isLoading == s.isLoading && r.error == s.error
  {
    match s.user
    case None => s
    case Some(u) =>
      MergeLaws(u, p, p);
      s.(user := Some(Merge(u, p)))
  }

  /** `clearError`: only the error goes. */
  function ClearError(s: AuthState): (r: AuthState)
    ensures r.error.None?
    ensures Partialize(r) == Partialize(s) && r.isLoading == s.isLoading
  {
    s.(error := None)
  }

  // ---------------------------------------------------------------------------
  // The session invariant kept by every action.

  /** A user is present exactly when a token is, and the store reports
      authenticated exactly then. */
  ghost predicate Coherent(s: AuthState) {
    (s.user.Some? <==> s.token.Some?) && (s.isAuthenticated <==> s.token.Some?)
  }

  lemma {:induction false} ActionsPreserveCoherence(s: AuthState, login: LoginReply, refresh: RefreshReply, p: UserPatch)
    requires Coherent(s)
    ensures Coherent(Initial)
    ensures Coherent(LoginStart(s))
    ensures Coherent(Login(s, login).0)
    ensures Coherent(Logout(s))
    ensures Coherent(RefreshToken(s, refresh).0)
    ensures Coherent(UpdateUser(s, p))
    ensures Coherent(ClearError(s))
  {
  }

  /** Log in with an accepted reply, then log out: the user signed in is the
      one the server returned, and after logout the session is empty. */
  lemma LoginThenLogout(s: AuthState, user: PublicUser, token: string)
    ensures var (s1, c) := Login(s, LoginOk(user, token));
            && c == Returned
            && s1.isAuthenticated && s1.user == Some(user) && s1.token == Some(token)
            && Partialize(Logout(s1)) == Persisted(None, None, false)
            && !Logout(s1).isAuthenticated
  {
  }
}
