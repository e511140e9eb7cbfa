/**
 Properties that relate several handlers: what a client can do next after a
 register, a login or a password change.
 */
module Flows {
  import opened Common
  import opened Bcrypt
  import opened Jwt
  import opened JsString
  import opened Server
  import UserModel

  /** Login for a stored user's email with a password that does not match the stored
      digest answers 400 "Passwords does not match". */
  lemma {:induction false} LoginWrongPassword(db: Db, i: nat, password: string, h: Hasher, now: int)
    requires Valid(db) && i < |db.users|
    requires !h.compare(password, db.users[i].password)
    ensures Login(db, db.users[i].email, Some(password), h, now, Reachable).response == Reply(400, Message(PasswordsMismatch))
  {
    UserModel.FindByEmailIsUnique(db.users, i);
  }

  /** Login with a matching password answers 200 with that user's email and a token whose
      claims are exactly that user's id and email, issued now, expiring 86400 s later and
      signed with the secret `auth` verifies with. */
  lemma {:induction false} LoginSucceeds(db: Db, i: nat, password: string, h: Hasher, now: int)
    requires Valid(db) && i < |db.users|
    requires h.compare(password, db.users[i].password)
    ensures var u := db.users[i];
      Login(db, u.email, Some(password), h, now, Reachable).response ==
        Reply(200, Session(LoginSuccessful, u.email, Token(Payload(Claims(u.id, u.email), now, now + Lifetime), Secret)))
  {
    UserModel.FindByEmailIsUnique(db.users, i);
  }

  /** After a successful registration, logging in with the same email and password
      succeeds with a token for the new id, and any other password is refused. */
  lemma {:induction false} RegisterThenLogin(db: Db, email: string, password: string, other: string,
                                             h: Hasher, now: int)
    requires Valid(db) && Ideal(h)
    requires Register(db, Some(email), Some(password), h, Reachable).response.Reply?
    ensures var db' := Register(db, Some(email), Some(password), h, Reachable).db;
      && Login(db', email, Some(password), h, now, Reachable).response ==
           Reply(200, Session(LoginSuccessful, email, Token(Payload(Claims(db.nextId, email), now, now + Lifetime), Secret)))
      && (other != password ==>
           Login(db', email, Some(other), h, now, Reachable).response == Reply(400, Message(PasswordsMismatch)))
  {
    var db' := Register(db, Some(email), Some(password), h, Reachable).db;
    var i := |db.users|;
    assert db'.users[i] == UserModel.UserDoc(db.nextId, email, h.hash(password));
    LoginSucceeds(db', i, password, h, now);
    if other != password {
      LoginWrongPassword(db', i, other, h, now);
    }
  }

  /** For a stored user and both passwords present, the change succeeds exactly when the
      current password matches the stored digest; an unknown id answers 404. */
  lemma {:induction false} ChangePasswordOutcome(db: Db, i: nat, current: string, newPassword: string, h: Hasher)
    requires Valid(db) && Ideal(h) && i < |db.users|
    ensures var r := ChangePassword(db, ObjectId(db.users[i].id), Some(current), Some(newPassword), h, Reachable).response;
      && (r.status == 200 <==> h.compare(current, db.users[i].password))
      && (r.status != 200 ==> r == Reply(400, Message(WrongCurrentPassword)))
  {
    UserModel.FindByIdIsUnique(db.users, i);
    assert h.hash(newPassword) != "";
  }

  /** After a successful password change the new password logs in, the old one no
      longer does, and the user's id and email are unchanged. */
  lemma {:induction false} ChangePasswordThenLogin(db: Db, i: nat, current: string, newPassword: string,
                                                   h: Hasher, now: int)
    requires Valid(db) && Ideal(h) && i < |db.users|
    requires ChangePassword(db, ObjectId(db.users[i].id), Some(current), Some(newPassword), h, Reachable).response.status == 200
    ensures var db' := ChangePassword(db, ObjectId(db.users[i].id), Some(current), Some(newPassword), h, Reachable).db;
      var u := db.users[i];
      && db'.users[i].id == u.id && db'.users[i].email == u.email
      && h.compare(newPassword, db'.users[i].password)
      && (current != newPassword ==> !h.compare(current, db'.users[i].password))
      && Login(db', u.email, Some(newPassword), h, now, Reachable).response.status == 200
      && (current != newPassword ==>
           Login(db', u.email, Some(current), h, now, Reachable).response == Reply(400, Message(PasswordsMismatch)))
  {
    var db' := ChangePassword(db, ObjectId(db.users[i].id), Some(current), Some(newPassword), h, Reachable).db;
    UserModel.FindByIdIsUnique(db.users, i);
    assert db'.users[i] == UserModel.UserDoc(db.users[i].id, db.users[i].email, h.hash(newPassword));
    LoginSucceeds(db', i, newPassword, h, now);
    if current != newPassword {
      LoginWrongPassword(db', i, current, h, now);
    }
  }

  /** A token from a successful login, sent back as `"Bearer " + token`, passes `auth`
      exactly while the clock is before its expiry, and `auth` hands the handler the
      logged-in user's id and email. */
  lemma {:induction false} LoginTokenPassesAuth(db: Db, email: string, password: string, h: Hasher,
                                                codec: Codec, issuedAt: int, later: int)
    requires Faithful(codec)
    requires Login(db, email, Some(password), h, issuedAt, Reachable).response.status == 200
    ensures var token := Login(db, email, Some(password), h, issuedAt, Reachable).response.body.token;
      var g := Authenticate(Some(BearerScheme + codec.encode(token)), codec.decode, later);
      && (g.Next? <==> later < issuedAt + Lifetime)
      && (g.Next? ==> g.user == token.payload && g.user.claims.userEmail == email
                      && UserModel.IdTaken(db.users, g.user.claims.userId))
  {
    var token := Login(db, email, Some(password), h, issuedAt, Reachable).response.body.token;
    var header := BearerScheme + codec.encode(token);
    assert BearerToken(header) == codec.encode(token);
    assert codec.decode(codec.encode(token)) == Some(token);
  }

  /** `auth` also admits a valid token sent with no scheme at all, because the
      `"Bearer "` removal leaves a header without that text unchanged. */
  lemma {:induction false} BareTokenPassesAuth(token: Token, codec: Codec, now: int)
    requires Faithful(codec)
    requires token.secret == Secret && now < token.payload.exp
    requires forall k :: 0 <= k < |codec.encode(token)| ==> codec.encode(token)[k] != ' '
    ensures Authenticate(Some(codec.encode(token)), codec.decode, now) == Next(token.payload)
  {
    BareTokenKept(codec.encode(token));
    assert codec.decode(codec.encode(token)) == Some(token);
  }

  /** A missing header, or one that is exactly `"Bearer "`, never reaches the handler. */
  lemma {:induction false} EmptyTokenRejected(decode: string -> Option<Token>, now: int)
    ensures Authenticate(None, decode, now) == Halt(Unauthorized)
    ensures Authenticate(Some(BearerScheme), decode, now) == Halt(Unauthorized)
  {
    assert BearerScheme == BearerScheme + "";
  }
}
