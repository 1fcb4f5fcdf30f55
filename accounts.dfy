/** The user registry's lookups (`authStorage.register` and `authStorage.login` in src/utils/storage.ts). */
module Accounts {
  import opened Types

  const EMAIL_TAKEN := "Email sudah terdaftar"
  const BAD_CREDENTIALS := "Email atau password salah"

  /** Some registered user has this email. */
  predicate EmailTaken(users: seq<User>, email: string)
  {
    exists k :: 0 <= k < |users| && users[k].email == email
  }

  /** No two registered users share an email. */
  predicate UniqueEmails(users: seq<User>)
  {
    forall i, j :: 0 <= i < j < |users| ==> users[i].email != users[j].email
  }

  /** Position k holds the first user registered with this email. */
  predicate IsFirstWithEmail(users: seq<User>, email: string, k: int)
  {
    0 <= k < |users| && users[k].email == email && forall j :: 0 <= j < k ==> users[j].email != email
  }

  /** `users.find(u => u.email === email)`: the first user with the email, if any. */
  function FindByEmail(users: seq<User>, email: string): (r: Option<User>)
    ensures r.Some? <==> EmailTaken(users, email)
    ensures r.Some? ==> r.value.email == email && r.value in users
    ensures r.Some? ==> exists k :: IsFirstWithEmail(users, email, k) && users[k] == r.value
  {
    if users == [] then None
    else if users[0].email == email then Some(users[0])
    else
      var r := FindByEmail(users[1..], email);
      assert forall k :: 0 < k < |users| ==> users[k] == users[1..][k - 1];
      if r.Some? then
        ghost var k :| IsFirstWithEmail(users[1..], email, k) && users[1..][k] == r.value;
        assert IsFirstWithEmail(users, email, k + 1);
        r
      else r
  }

  /** The registry after `register`: rejected when the email is taken, otherwise the new user appended. */
  function Registered(users: seq<User>, newUser: User): (r: Result<seq<User>, string>)
    ensures r.Err? <==> EmailTaken(users, newUser.email)
    ensures r.Err? ==> r.error == EMAIL_TAKEN
    ensures r.Ok? ==> r.value == users + [newUser]
    ensures r.Ok? && UniqueEmails(users) ==> UniqueEmails(r.value)
  {
    if FindByEmail(users, newUser.email).Some? then Err(EMAIL_TAKEN)
    else
      var grown := users + [newUser];
      assert forall k :: 0 <= k < |users| ==> grown[k] == users[k];
      Ok(grown)
  }

  /** The outcome of `login`: the first user with the email, whatever password was typed. */
  function LoginResult(users: seq<User>, email: string): (r: Result<User, string>)
    ensures r.Ok? <==> EmailTaken(users, email)
    ensures r.Ok? ==> r.value in users && r.value.email == email
    ensures r.Ok? ==> exists k :: IsFirstWithEmail(users, email, k) && users[k] == r.value
    ensures r.Err? ==> r.error == BAD_CREDENTIALS
  {
    match FindByEmail(users, email)
    case Some(u) => Ok(u)
    case None => Err(BAD_CREDENTIALS)
  }
}
