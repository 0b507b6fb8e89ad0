/** `POST /api/auth/register`: validates the fields, refuses an email already
    in this module's own table (ignoring case), and appends a new account. */
module RegisterRoute {
  import opened Wrappers
  import opened Text
  import opened Accounts

  /** This module's own seeded table; it starts with the same four rows as
      the login module's but is a separate array. */
  const Seed: seq<Account> := [
    Account("1", "doctor@medinexus.com", "password123", "张医生", "doctor", Some("内科"), Some("/avatars/doctor.png")),
    Account("2", "admin@medinexus.com", "admin123", "李管理员", "admin", None, Some("/avatars/admin.png")),
    Account("3", "researcher@medinexus.com", "research123", "王研究员", "researcher", Some("研发部"), Some("/avatars/researcher.png")),
    Account("4", "china@0379.email", "My151001", "系统管理员", "admin", None, Some("/avatars/admin.png"))
  ]

  const MissingFields := "请提供所有必填字段"
  const Duplicate := "该邮箱已被注册"
  const Failed := "注册过程中发生错误"

  /** The fields read from the JSON body; `department` is optional. */
  datatype Registration = Registration(
    email: Option<string>,
    password: Option<string>,
    name: Option<string>,
    role: Option<string>,
    department: Option<string>)

  predicate HasRequiredFields(r: Registration) {
    Truthy(r.email) && Truthy(r.password) && Truthy(r.name) && Truthy(r.role)
  }

  /** The default avatar path of a role. */
  function AvatarOf(role: string): (path: string)
    ensures |path| == |role| + 13
    ensures path[..9] == "/avatars/" && path[|path| - 4..] == ".png"
    ensures path[9..|path| - 4] == role
  {
    "/avatars/" + role + ".png"
  }

  /** The handler: the new table and the response. `request` is `None` when
      `request.json()` throws; `sign` stands for the JWT signer. */
  function Post(users: seq<Account>, request: Option<Registration>, sign: PublicUser -> string)
    : (r: (seq<Account>, Response))
    ensures request.None? ==> r == (users, Response(SERVER_ERROR, Message(Failed)))
    ensures request.Some? && !HasRequiredFields(request.value)
            ==> r == (users, Response(BAD_REQUEST, Message(MissingFields)))
    ensures request.Some? && HasRequiredFields(request.value) && EmailTaken(users, request.value.email.value)
            ==> r == (users, Response(CONFLICT, Message(Duplicate)))
    ensures r.1.status == OK <==>
              request.Some? && HasRequiredFields(request.value) && !EmailTaken(users, request.value.email.value)
    ensures r.1.status != OK ==> r.0 == users && r.1.body.Message?
    ensures r.1.status == OK ==>
              |r.0| == |users| + 1 &&
              var q := request.value;
              var added := r.0[|users|];
              && r.0[..|users|] == users
              && added.id == Decimal(|users| + 1)
              && added.email == q.email.value
              && added.password == q.password.value
              && added.name == q.name.value
              && added.role == q.role.value
              && added.department == q.department
              && added.avatar == Some(AvatarOf(q.role.value))
              && r.1.body == SignedIn(WithoutPassword(added), sign(WithoutPassword(added)))
  {
    match request
    case None => (users, Response(SERVER_ERROR, Message(Failed)))
    case Some(q) =>
      if !HasRequiredFields(q) then
        (users, Response(BAD_REQUEST, Message(MissingFields)))
      else if EmailTaken(users, q.email.value) then
        (users, Response(CONFLICT, Message(Duplicate)))
      else
        var added := Account(Decimal(|users| + 1), q.email.value, q.password.value, q.name.value,
                             q.role.value, q.department, Some(AvatarOf(q.role.value)));
        var user := WithoutPassword(added);
        (users + [added], Response(OK, SignedIn(user, sign(user))))
  }

  /** The table invariant registration maintains. */
  ghost predicate TableInvariant(users: seq<Account>) {
    UniqueEmails(users) && SequentialIds(users)
  }

  lemma SeedSatisfiesInvariant()
    ensures |Seed| == 4
    ensures TableInvariant(Seed)
  {
    forall i | 0 <= i < |Seed| ensures |Lower(Seed[i].email)| == |Seed[i].email| { }
    assert Decimal(1) == "1" && Decimal(2) == "2" && Decimal(3) == "3" && Decimal(4) == "4";
  }

  /** Every registration, accepted or refused, keeps emails unique ignoring
      case and ids sequential (hence unique). */
  lemma {:induction false} PostPreservesInvariant(users: seq<Account>, request: Option<Registration>,
                                                  sign: PublicUser -> string)
    requires TableInvariant(users)
    ensures TableInvariant(Post(users, request, sign).0)
  {
    var r := Post(users, request, sign);
    if r.1.status == OK {
      var t := r.0;
      var n := |users|;
      assert forall i :: 0 <= i < n ==> t[i] == users[i];
      forall i, j | 0 <= i < j < |t|
        ensures !SameEmail(t[i].email, t[j].email)
      {
        if j == n {
          assert !EmailTaken(users, t[n].email);
        } else {
          assert t[i] == users[i] && t[j] == users[j];
        }
      }
    }
  }

  /** Registering an email, then registering it again in any case variant,
      is refused with 409 and the second table equals the first. */
  lemma SecondRegistrationConflicts(users: seq<Account>, first: Registration, second: Registration,
                                    sign: PublicUser -> string)
    requires HasRequiredFields(first) && HasRequiredFields(second)
    requires SameEmail(first.email.value, second.email.value)
    requires Post(users, Some(first), sign).1.status == OK
    ensures var t := Post(users, Some(first), sign).0;
            Post(t, Some(second), sign) == (t, Response(CONFLICT, Message(Duplicate)))
  {
    var t := Post(users, Some(first), sign).0;
    assert SameEmail(t[|users|].email, second.email.value);
  }

  /** Registering a fifth account "a@x.com" as a doctor gives it id "5" and
      the default doctor avatar, and stores it without a department. */
  lemma RegisterFifthAccount(sign: PublicUser -> string)
    ensures var r := Post(Seed, Some(Registration(Some("a@x.com"), Some("p1"), Some("A"), Some("doctor"), None)), sign);
            && r.1.status == OK
            && r.0[4] == Account("5", "a@x.com", "p1", "A", "doctor", None, Some("/avatars/doctor.png"))
  {
    SeedSatisfiesInvariant();
    var e := "a@x.com";
    forall i | 0 <= i < |Seed| ensures !SameEmail(Seed[i].email, e) {
      assert |Lower(Seed[i].email)| != |Lower(e)|;
    }
    assert Decimal(5) == "5";
    assert AvatarOf("doctor") == "/avatars/doctor.png";
  }
}
