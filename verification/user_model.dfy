/**
 The `User` collection: documents in insertion order, with the constraints of
 `UserSchema` (both fields required, `email` unique, `password` not unique).
 */
module UserModel {
  import opened Common

  /** A stored user: `_id` plus the schema's only two data fields. `password` holds the digest. */
  datatype UserDoc = UserDoc(id: Id, email: string, password: string)

  predicate IdTaken(users: seq<UserDoc>, id: Id) {
    exists i :: 0 <= i < |users| && users[i].id == id
  }

  predicate EmailTaken(users: seq<UserDoc>, email: string) {
    exists i :: 0 <= i < |users| && users[i].email == email
  }

  /** The schema's constraints, as they hold of every stored collection. */
  ghost predicate Valid(users: seq<UserDoc>) {
    && (forall i, j :: 0 <= i < j < |users| ==> users[i].id != users[j].id)
    && (forall i, j :: 0 <= i < j < |users| ==> users[i].email != users[j].email)
    && (forall i :: 0 <= i < |users| ==> users[i].email != "" && users[i].password != "")
  }

  /** `User.findOne({ email })`: the first document in natural order whose email matches. */
  function FindByEmail(users: seq<UserDoc>, email: string): (r: Option<nat>)
    ensures r.Some? ==> r.value < |users| && users[r.value].email == email
    ensures r.Some? ==> forall j :: 0 <= j < r.value ==> users[j].email != email
    ensures r.None? <==> !EmailTaken(users, email)
    decreases |users|
  {
    if |users| == 0 then None
    else if users[0].email == email then Some(0)
    else match FindByEmail(users[1..], email)
      case None => None
      case Some(k) => Some(k + 1)
  }

  /** `User.findById(id)`: the first document in natural order with that `_id`. */
  function FindById(users: seq<UserDoc>, id: Id): (r: Option<nat>)
    ensures r.Some? ==> r.value < |users| && users[r.value].id == id
    ensures r.Some? ==> forall j :: 0 <= j < r.value ==> users[j].id != id
    ensures r.None? <==> !IdTaken(users, id)
    decreases |users|
  {
    if |users| == 0 then None
    else if users[0].id == id then Some(0)
    else match FindById(users[1..], id)
      case None => None
      case Some(k) => Some(k + 1)
  }

  /** In a valid collection the document holding an email is the one `findOne` returns. */
  lemma FindByEmailIsUnique(users: seq<UserDoc>, i: nat)
    requires Valid(users)
    requires i < |users|
    ensures FindByEmail(users, users[i].email) == Some(i)
  {
    var r := FindByEmail(users, users[i].email);
    assert r.Some?;
  }

  /** In a valid collection the document holding an id is the one `findById` returns. */
  lemma FindByIdIsUnique(users: seq<UserDoc>, i: nat)
    requires Valid(users)
    requires i < |users|
    ensures FindById(users, users[i].id) == Some(i)
  {
    var r := FindById(users, users[i].id);
    assert r.Some?;
  }

  /** `new User({ email, password }).save()`: validation of the required paths first,
      then the unique indexes on `_id` and `email`; on success the document is appended. */
  function Create(users: seq<UserDoc>, id: Id, email: Option<string>, password: Option<string>)
    : (r: Result<seq<UserDoc>, DbError>)
    ensures r.Ok? <==>
      RequiredString(email) && RequiredString(password) && !IdTaken(users, id) && !EmailTaken(users, email.value)
    ensures r.Ok? ==> r.value == users + [UserDoc(id, email.value, password.value)]
    ensures r.Err? && RequiredString(email) && RequiredString(password) && !IdTaken(users, id) ==>
      r.error == DuplicateKey("email")
    ensures Valid(users) && r.Ok? ==> Valid(r.value)
  {
    if !RequiredString(email) then Err(ValidationError("email"))
    else if !RequiredString(password) then Err(ValidationError("password"))
    else if FindById(users, id).Some? then Err(DuplicateKey("_id"))
    else if FindByEmail(users, email.value).Some? then Err(DuplicateKey("email"))
    else Ok(users + [UserDoc(id, email.value, password.value)])
  }

  /** `user.password = digest; user.save()` on the document at index `i`: the required
      validator runs again, and only that document's `password` changes. */
  function SetPassword(users: seq<UserDoc>, i: nat, password: string): (r: Result<seq<UserDoc>, DbError>)
    requires i < |users|
    ensures r.Ok? <==> password != ""
    ensures r.Err? ==> r.error == ValidationError("password")
    ensures r.Ok? ==> |r.value| == |users| && r.value[i] == UserDoc(users[i].id, users[i].email, password)
    ensures r.Ok? ==> forall j :: 0 <= j < |users| && j != i ==> r.value[j] == users[j]
    ensures Valid(users) && r.Ok? ==> Valid(r.value)
  {
    if password == "" then Err(ValidationError("password"))
    else Ok(users[i := users[i].(password := password)])
  }

  /** A second user with an email already stored is refused, so the collection never
      holds two documents with the same email. */
  lemma DuplicateEmailRejected(users: seq<UserDoc>, id: Id, i: nat, password: Option<string>)
    requires i < |users|
    ensures Create(users, id, Some(users[i].email), password).Err?
  {
  }

  /** Passwords are not unique: a new user may store a digest some other user already has. */
  lemma {:induction false} SharedPasswordAccepted(users: seq<UserDoc>, id: Id, email: string, i: nat)
    requires Valid(users)
    requires i < |users| && email != "" && !EmailTaken(users, email) && !IdTaken(users, id)
    ensures var r := Create(users, id, Some(email), Some(users[i].password));
      && r.Ok? && Valid(r.value)
      && r.value[i].password == r.value[|users|].password && r.value[i].id != r.value[|users|].id
  {
    var r := Create(users, id, Some(email), Some(users[i].password));
    assert r.value[i] == users[i];
  }
}
