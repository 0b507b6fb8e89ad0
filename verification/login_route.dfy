/** `POST /api/auth/login`: checks an email and password against this
    module's own seeded table and returns the password-free user with a
    session token. */
module LoginRoute {
  import opened Wrappers
  import opened Text
  import opened Accounts

  /** The four seeded accounts of this route module. */
  const Seed: seq<Account> := [
    Account("1", "doctor@medinexus.com", "password123", "张医生", "doctor", Some("内科"), Some("/avatars/doctor.png")),
    Account("2", "admin@medinexus.com", "admin123", "李管理员", "admin", None, Some("/avatars/admin.png")),
    Account("3", "researcher@medinexus.com", "research123", "王研究员", "researcher", Some("研发部"), Some("/avatars/researcher.png")),
    Account("4", "china@0379.email", "My151001", "系统管理员", "admin", None, Some("/avatars/admin.png"))
  ]

  const MissingFields := "邮箱和密码不能为空"
  const BadCredentials := "邮箱或密码不正确"
  const Failed := "登录过程中发生错误"

  /** The fields read from the JSON body. */
  datatype Credentials = Credentials(email: Option<string>, password: Option<string>)

  /** The handler. `request` is `None` when `request.json()` throws; `sign`
      stands for the JWT signer, which receives exactly the returned user.
      The table is an input only: login never changes it. */
  function Post(users: seq<Account>, request: Option<Credentials>, sign: PublicUser -> string): (r: Response)
    ensures request.None? ==> r == Response(SERVER_ERROR, Message(Failed))
    ensures request.Some? && !(Truthy(request.value.email) && Truthy(request.value.password))
            ==> r == Response(BAD_REQUEST, Message(MissingFields))
    ensures r.status == OK <==>
              && request.Some? && Truthy(request.value.email) && Truthy(request.value.password)
              && exists i :: 0 <= i < |users| && SameEmail(users[i].email, request.value.email.value)
                           && users[i].password == request.value.password.value
                           && FindByEmail(users, request.value.email.value) == Some(i)
    ensures request.Some? && Truthy(request.value.email) && Truthy(request.value.password)
            && !(exists i :: 0 <= i < |users| && FindByEmail(users, request.value.email.value) == Some(i)
                            && users[i].password == request.value.password.value)
            ==> r == Response(UNAUTHORIZED, Message(BadCredentials))
    ensures r.status == OK ==>
              var i := FindByEmail(users, request.value.email.value).value;
              r.body == SignedIn(WithoutPassword(users[i]), sign(WithoutPassword(users[i])))
    ensures r.status != OK ==> r.body.Message?
    ensures r.status in {OK, BAD_REQUEST, UNAUTHORIZED, SERVER_ERROR}
    ensures r.status == UNAUTHORIZED ==> r.body == Message(BadCredentials)
  {
    match request
    case None => Response(SERVER_ERROR, Message(Failed))
    case Some(Credentials(email, password)) =>
      if !Truthy(email) || !Truthy(password) then
        Response(BAD_REQUEST, Message(MissingFields))
      else
        match FindByEmail(users, email.value)
        case None => Response(UNAUTHORIZED, Message(BadCredentials))
        case Some(i) =>
          if users[i].password != password.value then
            Response(UNAUTHORIZED, Message(BadCredentials))
          else
            var user := WithoutPassword(users[i]);
            Response(OK, SignedIn(user, sign(user)))
  }

  /** An unknown email and a known email with a wrong password are answered
      identically, so the response does not reveal which accounts exist. */
  lemma RejectionIsUniform(users: seq<Account>, unknown: string, known: nat, wrong: string, password: string,
                           sign: PublicUser -> string)
    requires unknown != "" && password != "" && wrong != ""
    requires !EmailTaken(users, unknown)
    requires known < |users| && users[known].email != "" && UniqueEmails(users)
    requires wrong != users[known].password
    ensures Post(users, Some(Credentials(Some(unknown), Some(password))), sign)
         == Post(users, Some(Credentials(Some(users[known].email), Some(wrong))), sign)
         == Response(UNAUTHORIZED, Message(BadCredentials))
  {
    UniqueMatch(users, users[known].email, known);
  }

  /** The email is matched ignoring case: two spellings of one email get the
      same answer. */
  lemma EmailCaseIgnored(users: seq<Account>, e1: string, e2: string, password: Option<string>,
                         sign: PublicUser -> string)
    requires SameEmail(e1, e2) && e1 != "" && e2 != ""
    ensures Post(users, Some(Credentials(Some(e1), password)), sign)
         == Post(users, Some(Credentials(Some(e2), password)), sign)
  {
    FindByEmailIgnoresCase(users, e1, e2);
  }

  /** The password is compared exactly: the seeded account whose password is
      "My151001" is refused with "my151001" and accepted with "My151001". */
  lemma PasswordCaseMatters(sign: PublicUser -> string)
    ensures Post(Seed, Some(Credentials(Some("china@0379.email"), Some("my151001"))), sign).status == UNAUTHORIZED
    ensures Post(Seed, Some(Credentials(Some("china@0379.email"), Some("My151001"))), sign)
         == Response(OK, SignedIn(WithoutPassword(Seed[3]), sign(WithoutPassword(Seed[3]))))
  {
    SeedIsWellFormed();
    UniqueMatch(Seed, "china@0379.email", 3);
  }

  /** The seeded table has four accounts, ids "1" to "4", and emails that are
      pairwise distinct ignoring case. */
  lemma SeedIsWellFormed()
    ensures |Seed| == 4
    ensures UniqueEmails(Seed)
    ensures SequentialIds(Seed)
  {
    forall i | 0 <= i < |Seed| ensures |Lower(Seed[i].email)| == |Seed[i].email| { }
    assert Decimal(1) == "1" && Decimal(2) == "2" && Decimal(3) == "3" && Decimal(4) == "4";
  }
}
