/** The reset-password form: the ordered checks of `handleSubmit` (fields,
    match, token from the query string), the `PUT` request, the outcome
    messages, and the disabled rule of its inputs and button. */
module ResetPasswordForm {
  import opened Wrappers
  import opened Text
  import opened Transport
  import ResetRoute

  datatype View = View(
    password: string,
    confirmPassword: string,
    isLoading: bool,
    error: Option<string>,
    success: Option<string>)

  const Initial := View("", "", false, None, None)

  const FieldsMissing := "请填写所有字段"
  const Mismatch := "两次输入的密码不一致"
  const NoToken := "无效的重置令牌"
  const Done := "密码已成功重置"
  const ResetRejected := "重置密码失败"
  const ResetFailed := "重置密码时发生错误"
  /** Where the form navigates three seconds after success. */
  const LoginPage := "/login"
  const RedirectDelay := 3000

  /** The checks in order; `token` is `searchParams.get("token")`. */
  function Check(v: View, token: Option<string>): (m: Option<string>)
    ensures m == Some(FieldsMissing) <==> v.password == "" || v.confirmPassword == ""
    ensures m == Some(Mismatch) <==>
              v.password != "" && v.confirmPassword != "" && v.password != v.confirmPassword
    ensures m == Some(NoToken) <==>
              v.password != "" && v.password == v.confirmPassword && !Truthy(token)
    ensures m.None? <==> v.password != "" && v.password == v.confirmPassword && Truthy(token)
  {
    if v.password == "" || v.confirmPassword == "" then Some(FieldsMissing)
    else if v.password != v.confirmPassword then Some(Mismatch)
    else if !Truthy(token) then Some(NoToken)
    else None
  }

  /** Effects of a submit, in order. */
  datatype Event =
    | LoadingOn
    | PutReset(body: ResetRoute.ResetConsume)
    | RedirectLater(url: string, delayMs: int)
    | LoadingOff

  /** The route's answer as the form sees it. */
  datatype Reply = Accepted | Refused(failure: Failure)

  /** `handleSubmit`. */
  function Submit(v: View, token: Option<string>, reply: Reply): (r: (View, seq<Event>))
    ensures r.0.password == v.password && r.0.confirmPassword == v.confirmPassword
    ensures Check(v, token).Some? ==> r == (v.(error := Check(v, token), success := None), [])
    ensures Check(v, token).None? ==>
              && |r.1| >= 3
              && r.1[0] == LoadingOn
              && r.1[1] == PutReset(ResetRoute.ResetConsume(token, Some(v.password)))
              && r.1[|r.1| - 1] == LoadingOff
              && !r.0.isLoading
    ensures Check(v, token).None? && reply.Accepted? ==>
              && r.0.success == Some(Done) && r.0.error.None?
              && r.1 == [LoadingOn, PutReset(ResetRoute.ResetConsume(token, Some(v.password))),
                         RedirectLater(LoginPage, RedirectDelay), LoadingOff]
    ensures Check(v, token).None? && reply.Refused? ==>
              && r.0.success.None?
              && r.0.error == Some(Caught(Raise(reply.failure, ResetRejected), ResetFailed))
              && r.1 == [LoadingOn, PutReset(ResetRoute.ResetConsume(token, Some(v.password))), LoadingOff]
    ensures !(r.0.error.Some? && r.0.success.Some?)
  {
    match Check(v, token)
    case Some(m) => (v.(error := Some(m), success := None), [])
    case None =>
      var sent := [LoadingOn, PutReset(ResetRoute.ResetConsume(token, Some(v.password)))];
      match reply
      case Accepted =>
        (v.(error := None, success := Some(Done), isLoading := false),
         sent + [RedirectLater(LoginPage, RedirectDelay), LoadingOff])
      case Refused(f) =>
        (v.(error := Some(Caught(Raise(f, ResetRejected), ResetFailed)), success := None, isLoading := false),
         sent + [LoadingOff])
  }

  /** Inputs and button: `disabled={isLoading || !!success}`. */
  predicate Disabled(v: View) {
    v.isLoading || Truthy(v.success)
  }

  /** Every submit clears both messages first: the outcome does not depend
      on the messages shown before. */
  lemma SubmitIgnoresPriorMessages(v: View, e: Option<string>, s: Option<string>, token: Option<string>, reply: Reply)
    ensures Submit(v, token, reply) == Submit(v.(error := e, success := s), token, reply)
  {
  }

  /** After a successful reset the form stays disabled, so it cannot be
      resubmitted; after a refused one it is enabled again. */
  lemma DisabledAfterSuccess(v: View, token: Option<string>, reply: Reply)
    requires Check(v, token).None?
    ensures Disabled(Submit(v, token, reply).0) <==> reply.Accepted?
  {
  }

  /** A body the form sends always passes the route's field check. */
  lemma SentBodyHasFields(v: View, token: Option<string>, reply: Reply)
    requires Check(v, token).None?
    ensures var body := Submit(v, token, reply).1[1].body;
            Truthy(body.token) && Truthy(body.newPassword)
  {
  }
}
