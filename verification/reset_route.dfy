/** `POST` and `PUT /api/auth/reset-password`: minting a reset ticket for a
    known email, and consuming it to set a new password. The module keeps its
    own one-row account table and a ticket table keyed by token. */
module ResetRoute {
  import opened Wrappers
  import opened Text
  import opened Accounts

  /** This module's own seeded table: only the doctor account. */
  const Seed: seq<Account> := [
    Account("1", "doctor@medinexus.com", "password123", "张医生", "doctor", Some("内科"), Some("/avatars/doctor.png"))
  ]

  /** One hour, in milliseconds. */
  const TicketLifetime: int := 60 * 60 * 1000

  const MissingEmail := "请提供邮箱地址"
  const Acknowledged := "如果该邮箱已注册，您将收到重置密码的邮件"
  const RequestFailed := "处理密码重置请求时发生错误"
  const MissingFields := "请提供令牌和新密码"
  const InvalidTicket := "无效或已过期的重置令牌"
  const NoSuchUser := "用户不存在"
  const ResetDone := "密码已成功重置"
  const ResetFailed := "重置密码时发生错误"

  /** A stored reset ticket: the account email it was minted for and the
      instant (ms) after which it is refused. */
  datatype Ticket = Ticket(email: string, expires: int)

  datatype State = State(users: seq<Account>, tickets: map<string, Ticket>)

  const Initial := State(Seed, map[])

  /** Body of the `POST` (request) and of the `PUT` (consumption). */
  datatype ResetRequest = ResetRequest(email: Option<string>)
  datatype ResetConsume = ResetConsume(token: Option<string>, newPassword: Option<string>)

  /** `POST`: `now` stands for `Date.now()`, `minted` for the random token the
      handler would generate. The answer never depends on whether the email
      is registered. */
  function Request(s: State, request: Option<ResetRequest>, now: int, minted: string): (r: (State, Response))
    ensures r.0.users == s.users
    ensures request.None? ==> r == (s, Response(SERVER_ERROR, Message(RequestFailed)))
    ensures request.Some? && !Truthy(request.value.email)
            ==> r == (s, Response(BAD_REQUEST, Message(MissingEmail)))
    ensures request.Some? && Truthy(request.value.email) ==> r.1 == Response(OK, Message(Acknowledged))
    ensures request.Some? && Truthy(request.value.email) && !EmailTaken(s.users, request.value.email.value)
            ==> r.0 == s
    ensures request.Some? && Truthy(request.value.email) && EmailTaken(s.users, request.value.email.value)
            ==> var i := FindByEmail(s.users, request.value.email.value).value;
                r.0.tickets == s.tickets[minted := Ticket(s.users[i].email, now + TicketLifetime)]
  {
    match request
    case None => (s, Response(SERVER_ERROR, Message(RequestFailed)))
    case Some(ResetRequest(email)) =>
      if !Truthy(email) then
        (s, Response(BAD_REQUEST, Message(MissingEmail)))
      else
        match FindByEmail(s.users, email.value)
        case None => (s, Response(OK, Message(Acknowledged)))
        case Some(i) =>
          var ticket := Ticket(s.users[i].email, now + TicketLifetime);
          (s.(tickets := s.tickets[minted := ticket]), Response(OK, Message(Acknowledged)))
  }

  /** A ticket is honoured until its expiry instant, inclusive. */
  predicate Live(s: State, token: string, now: int) {
    token in s.tickets && !(s.tickets[token].expires < now)
  }

  /** `PUT`: `now` stands for `Date.now()`. On success only the first account
      matching the ticket's email changes, and only its password; the ticket
      is deleted then and only then. */
  function Consume(s: State, request: Option<ResetConsume>, now: int): (r: (State, Response))
    ensures request.None? ==> r == (s, Response(SERVER_ERROR, Message(ResetFailed)))
    ensures request.Some? && !(Truthy(request.value.token) && Truthy(request.value.newPassword))
            ==> r == (s, Response(BAD_REQUEST, Message(MissingFields)))
    ensures request.Some? && Truthy(request.value.token) && Truthy(request.value.newPassword)
            && !Live(s, request.value.token.value, now)
            ==> r == (s, Response(BAD_REQUEST, Message(InvalidTicket)))
    ensures request.Some? && Truthy(request.value.token) && Truthy(request.value.newPassword)
            && Live(s, request.value.token.value, now)
            && !EmailTaken(s.users, s.tickets[request.value.token.value].email)
            ==> r == (s, Response(NOT_FOUND, Message(NoSuchUser)))
    ensures r.1.status != OK ==> r.0 == s
    ensures r.1.status == NOT_FOUND ==> r.1.body == Message(NoSuchUser)
    ensures r.1.status == OK <==>
              && request.Some? && Truthy(request.value.token) && Truthy(request.value.newPassword)
              && Live(s, request.value.token.value, now)
              && EmailTaken(s.users, s.tickets[request.value.token.value].email)
    ensures r.1.status == OK ==>
              var token := request.value.token.value;
              var i := FindByEmail(s.users, s.tickets[token].email).value;
              && r.1.body == Message(ResetDone)
              && r.0.tickets == s.tickets - {token}
              && r.0.users == s.users[i := s.users[i].(password := request.value.newPassword.value)]
  {
    match request
    case None => (s, Response(SERVER_ERROR, Message(ResetFailed)))
    case Some(ResetConsume(token, newPassword)) =>
      if !Truthy(token) || !Truthy(newPassword) then
        (s, Response(BAD_REQUEST, Message(MissingFields)))
      else if token.value !in s.tickets || s.tickets[token.value].expires < now then
        (s, Response(BAD_REQUEST, Message(InvalidTicket)))
      else
        match FindByEmail(s.users, s.tickets[token.value].email)
        case None => (s, Response(NOT_FOUND, Message(NoSuchUser)))
        case Some(i) =>
          var updated := s.users[i].(password := newPassword.value);
          (State(s.users[i := updated], s.tickets - {token.value}), Response(OK, Message(ResetDone)))
  }

  /** A request's answer is the same for every non-empty email, registered or
      not, and whatever the current tables hold. */
  lemma RequestDoesNotRevealAccounts(s1: State, s2: State, e1: string, e2: string,
                                     now1: int, now2: int, fresh1: string, fresh2: string)
    requires e1 != "" && e2 != ""
    ensures Request(s1, Some(ResetRequest(Some(e1))), now1, fresh1).1
         == Request(s2, Some(ResetRequest(Some(e2))), now2, fresh2).1
  {
  }

  /** Requesting a reset for a registered email (in any case) and consuming
      the minted token within the hour, at or before expiry, succeeds and
      sets that account's password. */
  lemma {:induction false} RequestThenConsume(s: State, email: string, now: int, minted: string,
                                              later: int, password: string)
    requires email != "" && password != "" && minted != ""
    requires EmailTaken(s.users, email)
    requires now <= later <= now + TicketLifetime
    ensures var s1 := Request(s, Some(ResetRequest(Some(email))), now, minted).0;
            var r := Consume(s1, Some(ResetConsume(Some(minted), Some(password))), later);
            && r.1 == Response(OK, Message(ResetDone))
            && minted !in r.0.tickets
  {
    var s1 := Request(s, Some(ResetRequest(Some(email))), now, minted).0;
    var i := FindByEmail(s.users, email).value;
    assert s1.users == s.users;
    assert s1.tickets[minted] == Ticket(s.users[i].email, now + TicketLifetime);
    assert SameEmail(s1.users[i].email, s1.tickets[minted].email);
    assert Live(s1, minted, later);
  }

  /** The same minted token consumed after the hour is refused, and nothing
      changes. */
  lemma RequestThenConsumeTooLate(s: State, email: string, now: int, minted: string,
                                  later: int, password: string)
    requires email != "" && password != "" && minted != ""
    requires EmailTaken(s.users, email)
    requires later > now + TicketLifetime
    ensures var s1 := Request(s, Some(ResetRequest(Some(email))), now, minted).0;
            Consume(s1, Some(ResetConsume(Some(minted), Some(password))), later)
              == (s1, Response(BAD_REQUEST, Message(InvalidTicket)))
  {
    var s1 := Request(s, Some(ResetRequest(Some(email))), now, minted).0;
    assert s1.tickets[minted].expires == now + TicketLifetime;
  }

  /** A ticket is single-use: once consumed, the same token is refused. */
  lemma ConsumedTicketIsGone(s: State, request: ResetConsume, now: int, request2: ResetConsume, later: int)
    requires Consume(s, Some(request), now).1.status == OK
    requires Truthy(request2.newPassword) && request2.token == request.token
    ensures var s1 := Consume(s, Some(request), now).0;
            Consume(s1, Some(request2), later) == (s1, Response(BAD_REQUEST, Message(InvalidTicket)))
  {
  }

  /** Success touches nothing but the matched password and the used ticket:
      every other account and every other ticket is as before. */
  lemma ConsumeIsLocal(s: State, request: ResetConsume, now: int)
    requires Consume(s, Some(request), now).1.status == OK
    ensures var s1 := Consume(s, Some(request), now).0;
            var i := FindByEmail(s.users, s.tickets[request.token.value].email).value;
            && |s1.users| == |s.users|
            && (forall j :: 0 <= j < |s.users| && j != i ==> s1.users[j] == s.users[j])
            && WithoutPassword(s1.users[i]) == WithoutPassword(s.users[i])
            && (forall t :: t in s.tickets && t != request.token.value ==> t in s1.tickets && s1.tickets[t] == s.tickets[t])
  {
  }

  /** When a live ticket's account is gone the answer is 404 and the ticket
      is kept, so it can be presented again; it stays live until its expiry,
      and once an account with its email exists the same request succeeds
      and deletes it. */
  lemma OrphanTicketSurvives(s: State, token: string, password: string, now: int, later: int, a: Account)
    requires token != "" && password != ""
    requires Live(s, token, now) && !EmailTaken(s.users, s.tickets[token].email)
    requires now <= later <= s.tickets[token].expires
    ensures var r := Consume(s, Some(ResetConsume(Some(token), Some(password))), now);
            && r == (s, Response(NOT_FOUND, Message(NoSuchUser)))
            && token in r.0.tickets && Live(r.0, token, later)
    ensures SameEmail(a.email, s.tickets[token].email) ==>
              var r := Consume(s.(users := s.users + [a]), Some(ResetConsume(Some(token), Some(password))), later);
              r.1.status == OK && token !in r.0.tickets
  {
    if SameEmail(a.email, s.tickets[token].email) {
      var us := s.users + [a];
      assert us[|s.users|] == a;
    }
  }

  // ---------------------------------------------------------------------------
  // The ticket lookup as written: `resetTokens[token]` on a plain object.

  /** Member names every plain object inherits from `Object.prototype`.
      Indexing the ticket object with one of them yields a truthy value that
      is not a ticket: its `expires` and `email` are `undefined`. */
  const InheritedNames: set<string> := {
    "constructor", "__proto__", "toString", "toLocaleString", "valueOf",
    "hasOwnProperty", "isPrototypeOf", "propertyIsEnumerable",
    "__defineGetter__", "__defineSetter__", "__lookupGetter__", "__lookupSetter__"
  }

  /** What `resetTokens[token]` yields. */
  datatype Lookup = Own(ticket: Ticket) | Inherited | Absent

  function LookupAsWritten(tickets: map<string, Ticket>, token: string): (l: Lookup)
    ensures l.Own? <==> token in tickets
    ensures l.Inherited? <==> token !in tickets && token in InheritedNames
    ensures l.Own? ==> l.ticket == tickets[token]
  {
    if token in tickets then Own(tickets[token])
    else if token in InheritedNames then Inherited
    else Absent
  }

  /** `PUT` with the lookup as written. An inherited value passes the
      `!resetData || resetData.expires < now` test (`undefined < now` is
      false); `findIndex` then calls `.toLowerCase()` on its `undefined`
      email, which throws for a non-empty table (500), while on an empty
      table the callback never runs and the answer is 404. */
  function ConsumeAsWritten(s: State, request: Option<ResetConsume>, now: int): (r: (State, Response))
    ensures request.Some? && Truthy(request.value.token) && Truthy(request.value.newPassword)
            && LookupAsWritten(s.tickets, request.value.token.value).Inherited? && |s.users| > 0
            ==> r == (s, Response(SERVER_ERROR, Message(ResetFailed)))
    ensures request.Some? && Truthy(request.value.token) && Truthy(request.value.newPassword)
            && LookupAsWritten(s.tickets, request.value.token.value).Inherited? && |s.users| == 0
            ==> r == (s, Response(NOT_FOUND, Message(NoSuchUser)))
    ensures !(request.Some? && Truthy(request.value.token) && Truthy(request.value.newPassword)
              && LookupAsWritten(s.tickets, request.value.token.value).Inherited?)
            ==> r == Consume(s, request, now)
  {
    if request.Some? && Truthy(request.value.token) && Truthy(request.value.newPassword)
       && LookupAsWritten(s.tickets, request.value.token.value).Inherited?
    then
      if |s.users| > 0 then (s, Response(SERVER_ERROR, Message(ResetFailed)))
      else (s, Response(NOT_FOUND, Message(NoSuchUser)))
    else
      Consume(s, request, now)
  }

  /** The input that shows the discrepancy: with no tickets at all, the token
      "constructor" makes the as-written handler fail with 500, where every
      token without a live ticket is meant to get 400 "invalid or expired". */
  lemma InheritedTokenIsNotRefusedAsInvalid(now: int)
    ensures ConsumeAsWritten(Initial, Some(ResetConsume(Some("constructor"), Some("x"))), now).1.status == SERVER_ERROR
    ensures Consume(Initial, Some(ResetConsume(Some("constructor"), Some("x"))), now)
         == (Initial, Response(BAD_REQUEST, Message(InvalidTicket)))
  {
    assert "constructor" in InheritedNames;
  }
}
