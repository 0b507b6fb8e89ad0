/** The account record the three route modules share in shape (each module
    keeps its own table of them), the password-free user returned to clients,
    and the JSON responses of the routes. */
module Accounts {
  import opened Wrappers
  import opened Text
  import opened Seqs

  /** A row of a mock `users` array. `department` and `avatar` are absent on
      some rows; `password` is plaintext, as in the source. */
  datatype Account = Account(
    id: string,
    email: string,
    password: string,
    name: string,
    role: string,
    department: Option<string>,
    avatar: Option<string>)

  /** `userWithoutPassword`: the claims signed into a session token and the
      user object a client stores. */
  datatype PublicUser = PublicUser(
    id: string,
    email: string,
    name: string,
    role: string,
    department: Option<string>,
    avatar: Option<string>)

  function WithoutPassword(a: Account): PublicUser {
    PublicUser(a.id, a.email, a.name, a.role, a.department, a.avatar)
  }

  function WithPassword(u: PublicUser, password: string): Account {
    Account(u.id, u.email, password, u.name, u.role, u.department, u.avatar)
  }

  /** Dropping the password loses nothing else: putting it back restores the row. */
  lemma WithoutPasswordKeepsProfile(a: Account)
    ensures WithPassword(WithoutPassword(a), a.password) == a
    ensures WithoutPassword(WithPassword(WithoutPassword(a), "")) == WithoutPassword(a)
  {
  }

  /** The predicate every lookup passes to `find`/`findIndex`/`some`. */
  function HasEmail(email: string): Account -> bool {
    (u: Account) => SameEmail(u.email, email)
  }

  /** `users.findIndex((u) => u.email.toLowerCase() === email.toLowerCase())`. */
  function FindByEmail(users: seq<Account>, email: string): (r: Option<nat>)
    ensures r.Some? ==> r.value < |users| && SameEmail(users[r.value].email, email)
    ensures r.Some? ==> forall j :: 0 <= j < r.value ==> !SameEmail(users[j].email, email)
    ensures r.None? <==> forall j :: 0 <= j < |users| ==> !SameEmail(users[j].email, email)
  {
    FirstIndex(users, HasEmail(email))
  }

  /** `users.some((u) => u.email.toLowerCase() === email.toLowerCase())`. */
  function EmailTaken(users: seq<Account>, email: string): (b: bool)
    ensures b <==> exists i :: 0 <= i < |users| && SameEmail(users[i].email, email)
    ensures b <==> FindByEmail(users, email).Some?
  {
    Any(users, HasEmail(email))
  }

  /** Case variants of one email find the same row. */
  lemma FindByEmailIgnoresCase(users: seq<Account>, e1: string, e2: string)
    requires SameEmail(e1, e2)
    ensures FindByEmail(users, e1) == FindByEmail(users, e2)
  {
    var r1, r2 := FindByEmail(users, e1), FindByEmail(users, e2);
    assert forall j :: 0 <= j < |users| ==> (SameEmail(users[j].email, e1) <==> SameEmail(users[j].email, e2));
    if r1.Some? && r2.Some? {
      assert !(r1.value < r2.value) && !(r2.value < r1.value);
    }
  }

  /** The table invariant registration relies on: emails are pairwise distinct
      ignoring case. */
  ghost predicate UniqueEmails(users: seq<Account>) {
    forall i, j :: 0 <= i < j < |users| ==> !SameEmail(users[i].email, users[j].email)
  }

  /** Ids are "1", "2", ... in table order, as `length + 1` assigns them. */
  ghost predicate SequentialIds(users: seq<Account>) {
    forall i :: 0 <= i < |users| ==> users[i].id == Decimal(i + 1)
  }

  /** Sequential ids are pairwise distinct. */
  lemma SequentialIdsAreDistinct(users: seq<Account>, i: nat, j: nat)
    requires SequentialIds(users)
    requires i < j < |users|
    ensures users[i].id != users[j].id
  {
    DecimalInjective(i + 1, j + 1);
  }

  /** In a table with unique emails an email matches at most one row, so the
      first match is the only match. */
  lemma UniqueMatch(users: seq<Account>, email: string, k: nat)
    requires UniqueEmails(users)
    requires k < |users| && SameEmail(users[k].email, email)
    ensures FindByEmail(users, email) == Some(k)
  {
  }

  // ---------------------------------------------------------------------------
  // Responses of the route handlers.

  /** JSON bodies the routes return. */
  datatype Body =
    | Message(text: string)
    | SignedIn(user: PublicUser, token: string)

  /** `NextResponse.json(body, { status })`; the default status is 200. */
  datatype Response = Response(status: int, body: Body)

  const OK := 200
  const BAD_REQUEST := 400
  const UNAUTHORIZED := 401
  const NOT_FOUND := 404
  const CONFLICT := 409
  const SERVER_ERROR := 500
}
