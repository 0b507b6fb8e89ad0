/** The registration form: field edits, the ordered client-side checks of
    `handleSubmit`, the request, the automatic login through the session
    store, and the navigation home. The register reply and the login reply
    are inputs; the emitted effects are returned in order. */
module RegisterForm {
  import opened Wrappers
  import opened Transport
  import AuthStore
  import RegisterRoute
  import LoginRoute
  import Accounts

  datatype FormData = FormData(
    name: string,
    email: string,
    password: string,
    confirmPassword: string,
    role: string,
    department: string)

  datatype View = View(data: FormData, error: Option<string>, isLoading: bool)

  const Initial := View(FormData("", "", "", "", "", ""), None, false)

  const RequiredMissing := "请填写所有必填字段"
  const Mismatch := "两次输入的密码不一致"
  const RegisterRejected := "注册失败"
  const RegisterFailed := "注册过程中发生错误"

  /** The roles the selector offers. */
  const RoleOptions := ["doctor", "researcher", "admin"]

  datatype Field = Name | Email | Password | ConfirmPassword | Role | Department

  /** `handleChange` / `handleSelectChange`: one field takes the new value. */
  function Change(v: View, f: Field, value: string): (r: View)
    ensures r.error == v.error && r.isLoading == v.isLoading
    ensures f == Name ==> r.data == v.data.(name := value)
    ensures f == Password ==> r.data == v.data.(password := value)
    ensures f == ConfirmPassword ==> r.data == v.data.(confirmPassword := value)
    ensures f == Role ==> r.data == v.data.(role := value)
    ensures f == Department ==> r.data == v.data.(department := value)
    ensures f == Email ==> r.data == v.data.(email := value)
  {
    var d := v.data;
    v.(data := match f
      case Name => d.(name := value)
      case Email => d.(email := value)
      case Password => d.(password := value)
      case ConfirmPassword => d.(confirmPassword := value)
      case Role => d.(role := value)
      case Department => d.(department := value))
  }

  /** The department selector is rendered only for doctors. */
  predicate ShowsDepartment(d: FormData) {
    d.role == "doctor"
  }

  /** Of the offered roles, only the first, "doctor", shows the department
      selector. */
  lemma OnlyDoctorsSeeDepartment()
    ensures forall i :: 0 <= i < |RoleOptions| ==>
              (ShowsDepartment(FormData("", "", "", "", RoleOptions[i], "")) <==> i == 0)
  {
  }

  /** The checks in order; `None` when the form may be sent. The department
      is not required. */
  function Check(d: FormData): (m: Option<string>)
    ensures m == Some(RequiredMissing) <==> d.name == "" || d.email == "" || d.password == "" || d.role == ""
    ensures m == Some(Mismatch) <==>
              d.name != "" && d.email != "" && d.password != "" && d.role != "" && d.password != d.confirmPassword
    ensures m.None? <==>
              d.name != "" && d.email != "" && d.password != "" && d.role != "" && d.password == d.confirmPassword
  {
    if d.name == "" || d.email == "" || d.password == "" || d.role == "" then Some(RequiredMissing)
    else if d.password != d.confirmPassword then Some(Mismatch)
    else None
  }

  /** The JSON body sent to the register route. */
  function Body(d: FormData): RegisterRoute.Registration {
    RegisterRoute.Registration(Some(d.email), Some(d.password), Some(d.name), Some(d.role), Some(d.department))
  }

  /** A form that passes the client checks also passes the route's
      required-field check, and the route sees exactly the typed email. */
  lemma CheckedBodyHasRequiredFields(d: FormData)
    requires Check(d).None?
    ensures RegisterRoute.HasRequiredFields(Body(d))
    ensures Body(d).email == Some(d.email)
  {
  }

  /** A department picked while the role was "doctor" is still sent after the
      role changes, though the selector is then hidden. */
  lemma HiddenDepartmentIsStillSent(v: View, dept: string, role: string)
    requires role != "doctor"
    ensures var v1 := Change(Change(Change(v, Role, "doctor"), Department, dept), Role, role);
            && !ShowsDepartment(v1.data)
            && Body(v1.data).department == Some(dept)
  {
  }

  /** Effects of a submit, in order. */
  datatype Event =
    | LoadingOn
    | PostRegister(body: RegisterRoute.Registration)
    | CallLogin(email: string, password: string)
    | Navigate(url: string)
    | LoadingOff

  /** The register route's answer as the form sees it. */
  datatype Reply = Accepted | Refused(failure: Failure)

  /** `handleSubmit`: the new form view, the new session store and the
      effects. `store` is the session store the form logs in through. */
  function Submit(v: View, store: AuthStore.AuthState, reply: Reply, login: AuthStore.LoginReply)
    : (r: (View, AuthStore.AuthState, seq<Event>))
    ensures r.0.data == v.data
    ensures Check(v.data).Some? ==> r == (v.(error := Check(v.data)), store, [])
    ensures Check(v.data).None? ==>
              && |r.2| >= 3
              && r.2[0] == LoadingOn
              && r.2[1] == PostRegister(Body(v.data))
              && r.2[|r.2| - 1] == LoadingOff
              && !r.0.isLoading
    ensures Check(v.data).None? && reply.Refused? ==>
              && r.1 == store
              && r.2 == [LoadingOn, PostRegister(Body(v.data)), LoadingOff]
              && r.0.error == Some(Caught(Raise(reply.failure, RegisterRejected), RegisterFailed))
    ensures Check(v.data).None? && reply.Accepted? ==>
              && r.1 == AuthStore.Login(store, login).0
              && r.2 == [LoadingOn, PostRegister(Body(v.data)), CallLogin(v.data.email, v.data.password)]
                        + (if login.LoginOk? then [Navigate("/")] else []) + [LoadingOff]
    ensures Navigate("/") in r.2 <==> Check(v.data).None? && reply.Accepted? && login.LoginOk?
    ensures r.0.error.None? <==> Navigate("/") in r.2
  {
    var d := v.data;
    match Check(d)
    case Some(m) => (v.(error := Some(m)), store, [])
    case None =>
      var sent := [LoadingOn, PostRegister(Body(d))];
      match reply
      case Refused(f) =>
        var message := Caught(Raise(f, RegisterRejected), RegisterFailed);
        (View(d, Some(message), false), store, sent + [LoadingOff])
      case Accepted =>
        var (store', completion) := AuthStore.Login(store, login);
        var called := sent + [CallLogin(d.email, d.password)];
        match completion
        case Returned => (View(d, None, false), store', called + [Navigate("/"), LoadingOff])
        case Rethrown(t) => (View(d, Some(Caught(t, RegisterFailed)), false), store', called + [LoadingOff])
  }

  /** Every submit starts by clearing the error: the outcome does not depend
      on the error shown before. */
  lemma SubmitIgnoresPriorError(v: View, e: Option<string>, store: AuthStore.AuthState, reply: Reply,
                                login: AuthStore.LoginReply)
    ensures Submit(v, store, reply, login) == Submit(v.(error := e), store, reply, login)
  {
  }

  /** After a successful registration the auto-login failing shows the login
      error's message, and the user stays on the form signed out as before. */
  lemma AutoLoginFailureIsShown(v: View, store: AuthStore.AuthState, f: Failure)
    requires Check(v.data).None?
    ensures var r := Submit(v, store, Accepted, AuthStore.LoginError(f));
            && r.0.error == Some(Caught(Raise(f, AuthStore.LoginRejected), RegisterFailed))
            && AuthStore.Partialize(r.1) == AuthStore.Partialize(store)
            && Navigate("/") !in r.2
  {
  }

  /** The auto-login after a registration is always refused. The login route
      reads its own table, which only ever holds its four seeded accounts;
      the register route's table starts with the same four rows and accepts
      only an email none of its rows carries. So the login answers 401, the
      form shows the credentials message and the user is not sent to "/". */
  lemma {:induction false} AutoLoginIsAlwaysRefused(users: seq<Accounts.Account>, v: View,
                                                   store: AuthStore.AuthState,
                                                   sign: Accounts.PublicUser -> string,
                                                   sign2: Accounts.PublicUser -> string)
    requires |users| >= 4 && users[..4] == RegisterRoute.Seed
    requires Check(v.data).None?
    requires RegisterRoute.Post(users, Some(Body(v.data)), sign).1.status == Accounts.OK
    ensures LoginRoute.Post(LoginRoute.Seed, Some(LoginRoute.Credentials(Some(v.data.email), Some(v.data.password))), sign2)
            == Accounts.Response(Accounts.UNAUTHORIZED, Accounts.Message(LoginRoute.BadCredentials))
    ensures var r := Submit(v, store, Accepted, AuthStore.LoginError(NotOk(Some(LoginRoute.BadCredentials))));
            && r.0.error == Some(LoginRoute.BadCredentials)
            && Navigate("/") !in r.2
            && AuthStore.Partialize(r.1) == AuthStore.Partialize(store)
  {
    var email := v.data.email;
    assert !Accounts.EmailTaken(users, email);
    forall k | 0 <= k < |LoginRoute.Seed|
      ensures !Text.SameEmail(LoginRoute.Seed[k].email, email)
    {
      assert users[k] == users[..4][k] == LoginRoute.Seed[k];
    }
  }
}
