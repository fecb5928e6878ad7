/**
 * The `users` table and the lookups on it: the case-insensitive email lookup
 * shared by registration and key rotation, and `_authenticate`, which turns a
 * bearer key into a user id.
 */
module Accounts {
  import opened Wrappers
  import opened Collation

  /** One row of the `users` table; the two timestamp columns are not modelled. */
  datatype User = User(id: string, apiKey: string, email: string, name: string, passwordHash: string, salt: string)

  /**
   * What the table keeps: the primary key on `user_id` and the UNIQUE constraints on
   * `api_key` and `email`, plus what every insert stores: a lower-cased email and a
   * non-empty generated key.
   */
  ghost predicate UsersValid(users: seq<User>) {
    && (forall i, j :: 0 <= i < j < |users| ==> users[i].id != users[j].id)
    && (forall i, j :: 0 <= i < j < |users| ==> users[i].apiKey != users[j].apiKey)
    && (forall i, j :: 0 <= i < j < |users| ==> users[i].email != users[j].email)
    && (forall i :: 0 <= i < |users| ==> users[i].apiKey != "" && IsLower(users[i].email))
  }

  /** The first row with `LOWER(email) = LOWER(?)`, if any. */
  function FindByEmail(users: seq<User>, email: string): (r: Option<nat>)
    ensures r.Some? ==> r.value < |users| && Lower(users[r.value].email) == Lower(email)
    ensures r.None? <==> forall i :: 0 <= i < |users| ==> Lower(users[i].email) != Lower(email)
  {
    if users == [] then None
    else if Lower(users[0].email) == Lower(email) then Some(0)
    else match FindByEmail(users[1..], email)
      case None => None
      case Some(i) => Some(i + 1)
  }

  /** The first row with `api_key = ?`, if any. */
  function FindByKey(users: seq<User>, apiKey: string): (r: Option<nat>)
    ensures r.Some? ==> r.value < |users| && users[r.value].apiKey == apiKey
    ensures r.None? <==> forall i :: 0 <= i < |users| ==> users[i].apiKey != apiKey
  {
    if users == [] then None
    else if users[0].apiKey == apiKey then Some(0)
    else match FindByKey(users[1..], apiKey)
      case None => None
      case Some(i) => Some(i + 1)
  }

  /** Why `_authenticate` raised: no key at all, or a key nobody holds. */
  datatype AuthError = KeyRequired | KeyInvalid

  /** `_authenticate`: the id of the user holding `apiKey`. */
  function Authenticate(users: seq<User>, apiKey: string): (r: Result<string, AuthError>)
    ensures r == Failure(KeyRequired) <==> apiKey == ""
    ensures r == Failure(KeyInvalid) <==> apiKey != "" && forall i :: 0 <= i < |users| ==> users[i].apiKey != apiKey
    ensures r.Success? ==> exists i :: 0 <= i < |users| && users[i].apiKey == apiKey && users[i].id == r.value
    ensures UsersValid(users) ==>
      forall i :: 0 <= i < |users| && users[i].apiKey == apiKey ==> r == Success(users[i].id)
  {
    if apiKey == "" then Failure(KeyRequired)
    else match FindByKey(users, apiKey)
      case None => Failure(KeyInvalid)
      case Some(i) => Success(users[i].id)
  }

  /** Stored emails are lower-case and distinct, so at most one user matches an email ignoring case. */
  lemma {:induction false} EmailMatchUnique(users: seq<User>, email: string, i: nat, j: nat)
    requires UsersValid(users)
    requires i < |users| && j < |users|
    requires Lower(users[i].email) == Lower(email) && Lower(users[j].email) == Lower(email)
    ensures i == j
  {
    assert Lower(users[i].email) == users[i].email;
    assert Lower(users[j].email) == users[j].email;
  }

  /** Some row has this `user_id` (the primary key). */
  predicate HasUserId(users: seq<User>, id: string) {
    exists i :: 0 <= i < |users| && users[i].id == id
  }

  /** Some row has exactly this stored `email` (the UNIQUE constraint). */
  predicate HasEmail(users: seq<User>, email: string) {
    exists i :: 0 <= i < |users| && users[i].email == email
  }

  /** Under ASCII folding, a registration that passed the case-insensitive check cannot clash with a stored email. */
  lemma StoredEmailFree(users: seq<User>, email: string)
    requires UsersValid(users)
    requires FindByEmail(users, email).None?
    ensures !HasEmail(users, Lower(email))
  {
  }

  /** Inserting a row that meets the table's constraints keeps them and keeps every user id. */
  lemma InsertUser(users: seq<User>, u: User)
    requires UsersValid(users)
    requires u.apiKey != "" && IsLower(u.email)
    requires !HasUserId(users, u.id) && FindByKey(users, u.apiKey).None? && !HasEmail(users, u.email)
    ensures UsersValid(users + [u])
    ensures forall id :: HasUserId(users, id) ==> HasUserId(users + [u], id)
  {
    var users' := users + [u];
    assert users'[|users|] == u;
    assert forall k :: 0 <= k < |users| ==> users'[k] == users[k];
    forall id | HasUserId(users, id) ensures HasUserId(users', id) {
      var k :| 0 <= k < |users| && users[k].id == id;
      assert users'[k] == users[k];
    }
  }

  /** The key of a user in a valid table authenticates to that user. */
  lemma KeyAuthenticates(users: seq<User>, i: nat)
    requires UsersValid(users) && i < |users|
    ensures Authenticate(users, users[i].apiKey) == Success(users[i].id)
  {
  }

  /** Replacing one user's key with a key no other user holds keeps the constraints; the new key replaces the old one. */
  lemma ReplaceKey(users: seq<User>, i: nat, key: string)
    requires UsersValid(users)
    requires i < |users| && key != ""
    requires forall j :: 0 <= j < |users| && j != i ==> users[j].apiKey != key
    ensures UsersValid(users[i := users[i].(apiKey := key)])
    ensures Authenticate(users[i := users[i].(apiKey := key)], key) == Success(users[i].id)
    ensures users[i].apiKey != key ==> Authenticate(users[i := users[i].(apiKey := key)], users[i].apiKey) == Failure(KeyInvalid)
    ensures forall id :: HasUserId(users, id) <==> HasUserId(users[i := users[i].(apiKey := key)], id)
  {
    var users' := users[i := users[i].(apiKey := key)];
    assert users'[i].id == users[i].id;
    forall id ensures HasUserId(users, id) <==> HasUserId(users', id) {
      if HasUserId(users, id) {
        var j :| 0 <= j < |users| && users[j].id == id;
        assert users'[j].id == id;
      }
      if HasUserId(users', id) {
        var j :| 0 <= j < |users'| && users'[j].id == id;
        assert users[j].id == id;
      }
    }
  }
}
