/** Lookups in the user collection, which is kept in insertion order; a
    lookup returns the first stored user that matches. */
module Users {
  import opened Common
  import opened Models

  /** The user stored under `email`, if any. */
  function FindByEmail(users: seq<User>, email: string): (r: Option<User>)
    ensures r.Some? ==> r.value in users && r.value.email == email
    ensures r.None? <==> forall i :: 0 <= i < |users| ==> users[i].email != email
  {
    if users == [] then None
    else if users[0].email == email then Some(users[0])
    else
      var r := FindByEmail(users[1..], email);
      assert forall i :: 1 <= i < |users| ==> users[i] == users[1..][i - 1];
      r
  }

  /** The user whose id is `id`, if any (the donor lookup of the listings). */
  function FindById(users: seq<User>, id: string): (r: Option<User>)
    ensures r.Some? ==> r.value in users && r.value.id == id
    ensures r.None? <==> forall i :: 0 <= i < |users| ==> users[i].id != id
  {
    if users == [] then None
    else if users[0].id == id then Some(users[0])
    else
      var r := FindById(users[1..], id);
      assert forall i :: 1 <= i < |users| ==> users[i] == users[1..][i - 1];
      r
  }

  /** No two stored users share an id (ids are fresh uuids). */
  predicate IdsUnique(users: seq<User>) {
    forall i, j :: 0 <= i < j < |users| ==> users[i].id != users[j].id
  }

  /** No two stored users share an email. */
  predicate EmailsUnique(users: seq<User>) {
    forall i, j :: 0 <= i < |users| && 0 <= j < |users| && users[i].email == users[j].email ==> i == j
  }

  /** Appending a user whose email is not yet stored keeps emails unique. */
  lemma {:induction false} AppendKeepsEmailsUnique(users: seq<User>, u: User)
    requires EmailsUnique(users)
    requires FindByEmail(users, u.email).None?
    ensures EmailsUnique(users + [u])
  {
    var all := users + [u];
    forall i, j | 0 <= i < |all| && 0 <= j < |all| && all[i].email == all[j].email
      ensures i == j
    {
      if i < |users| && j < |users| {
        assert users[i].email == users[j].email;
      }
    }
  }

  /** With unique emails, looking a stored user up by email finds exactly that user. */
  lemma {:induction false} EmailIdentifiesUser(users: seq<User>, k: nat)
    requires EmailsUnique(users)
    requires k < |users|
    ensures FindByEmail(users, users[k].email) == Some(users[k])
  {
    var r := FindByEmail(users, users[k].email);
    assert r.Some?;
    var j :| 0 <= j < |users| && users[j] == r.value;
    assert users[j].email == users[k].email;
  }
}
