/**
 The Express application: each route handler as a pure transition from the
 request and the database to a response and the new database.

 A response is `NoReply` where the handler's promise rejects and nothing
 catches it, so the client never hears back.
 */
module Server {
  import opened Common
  import opened Bcrypt
  import opened Jwt
  import opened JsString
  import UserModel
  import ProductModel

  datatype Db = Db(users: seq<UserModel.UserDoc>, products: seq<ProductModel.ProductDoc>, nextId: Id)

  /** Both schemas hold, and every stored id was drawn before `nextId`. */
  ghost predicate Valid(db: Db) {
    && UserModel.Valid(db.users)
    && ProductModel.Valid(db.products)
    && (forall i :: 0 <= i < |db.users| ==> db.users[i].id < db.nextId)
    && (forall i :: 0 <= i < |db.products| ==> db.products[i].id < db.nextId)
  }

  /** `nextId` is never an id already in use. */
  lemma FreshId(db: Db)
    ensures Valid(db) ==> !UserModel.IdTaken(db.users, db.nextId) && !ProductModel.IdTaken(db.products, db.nextId)
  {
  }

  datatype Body =
    | Text(text: string)
    | Message(message: string)
    | WithId(message: string, id: Id)
    | Session(message: string, email: string, token: Token)
    | Products(items: seq<ProductModel.ProductDoc>)

  datatype Response = Reply(status: nat, body: Body) | NoReply

  datatype Transition = Transition(response: Response, db: Db)

  /** The `:id` route parameter, which `findById` either casts to an id or rejects. */
  datatype PathId = ObjectId(id: Id) | NotObjectId(raw: string)

  /** What `auth` does: call `next` with the decoded payload on `req.user`, or answer itself. */
  datatype Gate = Next(user: Payload) | Halt(response: Response)

  const BearerScheme: string := "Bearer "
  const UserCreated: string := "User created successfully"
  const NoUserFound: string := "No user found"
  const PasswordsMismatch: string := "Passwords does not match"
  const LoginSuccessful: string := "Login Successful"
  const Unauthorized: Response := Reply(401, Text("Unauthorized"))
  const Authorized: string := "You are authorized!"
  const UserNotFound: string := "User not found"
  const WrongCurrentPassword: string := "Current password is incorrect"
  const PasswordUpdated: string := "Password updated successfully"
  const ProductAdded: string := "Product added"
  const InternalError: Response := Reply(500, Message("Internal server error"))

  /** `POST /register`: hash the password, then save a new user. Neither promise has a
      rejection handler, so every failure leaves the client without a response. */
  function Register(db: Db, email: Option<string>, password: Option<string>, h: Hasher, backend: Backend)
    : (t: Transition)
    ensures t.response.NoReply? ==> t.db == db
    ensures t.response.Reply? ==>
      && email.Some? && password.Some?
      && t.response == Reply(201, WithId(UserCreated, db.nextId))
      && t.db == Db(db.users + [UserModel.UserDoc(db.nextId, email.value, h.hash(password.value))],
                    db.products, db.nextId + 1)
    ensures Valid(db) ==>
      (t.response.Reply? <==>
         && backend == Reachable && RequiredString(email) && password.Some?
         && h.hash(password.value) != "" && !UserModel.EmailTaken(db.users, email.value))
    ensures Ideal(h) && t.response.Reply? ==> t.db.users[|db.users|].password != password.value
    ensures Valid(db) ==> Valid(t.db)
  {
    FreshId(db);
    match password
    case None => Transition(NoReply, db)
    case Some(p) =>
      if backend != Reachable then Transition(NoReply, db)
      else
        var saved := UserModel.Create(db.users, db.nextId, email, Some(h.hash(p)));
        if saved.Err? then Transition(NoReply, db)
        else
          assert !UserModel.EmailTaken(db.users, email.value);
          Transition(Reply(201, WithId(UserCreated, db.nextId)), db.(users := saved.value, nextId := db.nextId + 1))
  }

  /** `POST /login`: look the email up, compare the password with the stored digest,
      and on a match sign a 24-hour token for that user. An absent password makes
      `bcrypt.compare` reject, and nothing catches that rejection. */
  function Login(db: Db, email: string, password: Option<string>, h: Hasher, now: int, backend: Backend)
    : (t: Transition)
    ensures t.db == db
    ensures t.response.NoReply? <==>
      backend != Reachable || (UserModel.EmailTaken(db.users, email) && password.None?)
    ensures t.response.Reply? ==> t.response.status == 200 || t.response.status == 400
    ensures backend == Reachable && !UserModel.EmailTaken(db.users, email) ==>
      t.response == Reply(400, Text(NoUserFound))
    ensures t.response.Reply? && t.response.status == 400 && UserModel.EmailTaken(db.users, email) ==>
      t.response.body == Message(PasswordsMismatch)
    ensures t.response.Reply? && t.response.status == 200 ==>
      password.Some? &&
      exists i :: 0 <= i < |db.users| && db.users[i].email == email
        && h.compare(password.value, db.users[i].password)
        && t.response.body == Session(LoginSuccessful, email,
             Token(Payload(Claims(db.users[i].id, email), now, now + Lifetime), Secret))
  {
    if backend != Reachable then Transition(NoReply, db)
    else match UserModel.FindByEmail(db.users, email)
      case None => Transition(Reply(400, Text(NoUserFound)), db)
      case Some(i) =>
        var user := db.users[i];
        if password.None? then Transition(NoReply, db)
        else if !h.compare(password.value, user.password) then
          Transition(Reply(400, Message(PasswordsMismatch)), db)
        else
          var token := Sign(Claims(user.id, user.email), Secret, now);
          Transition(Reply(200, Session(LoginSuccessful, user.email, token)), db)
  }

  /** The token the `auth` middleware reads: the `Authorization` header with its first
      `"Bearer "` removed, wherever that occurrence is. */
  function BearerToken(header: string): (token: string)
    ensures forall t :: header == BearerScheme + t ==> token == t
  {
    forall t | header == BearerScheme + t ensures RemoveFirst(header, BearerScheme) == t {
      RemovesLeadingPattern(BearerScheme, t);
    }
    RemoveFirst(header, BearerScheme)
  }

  /** The `auth` middleware at time `now`, with `decode` parsing the token string.
      A missing header, an empty token and any `jwt.verify` failure all answer 401. */
  function Authenticate(header: Option<string>, decode: string -> Option<Token>, now: int): (g: Gate)
    ensures g.Halt? ==> g.response == Unauthorized
    ensures g.Next? <==>
      && header.Some? && BearerToken(header.value) != ""
      && Verify(decode(BearerToken(header.value)), Secret, now).Verified?
    ensures g.Next? ==>
      && decode(BearerToken(header.value)).Some?
      && decode(BearerToken(header.value)).value.secret == Secret
      && now < g.user.exp
      && g.user == decode(BearerToken(header.value)).value.payload
  {
    match header
    case None => Halt(Unauthorized)
    case Some(value) =>
      var token := BearerToken(value);
      if token == "" then Halt(Unauthorized)
      else match Verify(decode(token), Secret, now)
        case Verified(payload) => Next(payload)
        case _ => Halt(Unauthorized)
  }

  /** `GET /testuser`, the one route behind `auth`. */
  function TestUser(db: Db, header: Option<string>, decode: string -> Option<Token>, now: int): (t: Transition)
    ensures t.db == db
    ensures t.response == Reply(200, Text(Authorized)) <==> Authenticate(header, decode, now).Next?
    ensures t.response != Reply(200, Text(Authorized)) ==> t.response == Unauthorized
  {
    match Authenticate(header, decode, now)
    case Next(_) => Transition(Reply(200, Text(Authorized)), db)
    case Halt(response) => Transition(response, db)
  }

  /** `POST /user/:id`: find the user, compare `currentPassword` with the stored digest,
      then store the digest of `newPassword`. The handler catches every rejection
      (a cast error, an absent password, an unreachable database) as a 500. */
  function ChangePassword(db: Db, userId: PathId, currentPassword: Option<string>, newPassword: Option<string>,
                          h: Hasher, backend: Backend): (t: Transition)
    ensures t.response.Reply?
    ensures t.response.status != 200 ==> t.db == db
    ensures t.response.status in {200, 400, 404, 500}
    ensures t.response.status == 500 ==> t.response == InternalError
    ensures t.response.status == 404 <==>
      backend == Reachable && userId.ObjectId? && !UserModel.IdTaken(db.users, userId.id)
    ensures t.response.status == 404 ==> t.response.body == Message(UserNotFound)
    ensures t.response.status == 400 ==> t.response.body == Message(WrongCurrentPassword)
    ensures t.response.status == 400 ==>
      && userId.ObjectId? && currentPassword.Some?
      && exists i :: 0 <= i < |db.users| && db.users[i].id == userId.id
           && !h.compare(currentPassword.value, db.users[i].password)
    ensures t.response.status == 200 ==>
      && t.response.body == Message(PasswordUpdated)
      && userId.ObjectId? && currentPassword.Some? && newPassword.Some?
      && t.db.products == db.products && t.db.nextId == db.nextId
      && |t.db.users| == |db.users|
      && exists i :: 0 <= i < |db.users| && db.users[i].id == userId.id
           && h.compare(currentPassword.value, db.users[i].password)
           && t.db.users == db.users[i := UserModel.UserDoc(userId.id, db.users[i].email, h.hash(newPassword.value))]
    ensures Valid(db) ==> Valid(t.db)
  {
    if backend != Reachable || userId.NotObjectId? then Transition(InternalError, db)
    else match UserModel.FindById(db.users, userId.id)
      case None =>
        assert !UserModel.IdTaken(db.users, userId.id);
        Transition(Reply(404, Message(UserNotFound)), db)
      case Some(i) =>
        if currentPassword.None? then Transition(InternalError, db)
        else if !h.compare(currentPassword.value, db.users[i].password) then
          Transition(Reply(400, Message(WrongCurrentPassword)), db)
        else if newPassword.None? then Transition(InternalError, db)
        else match UserModel.SetPassword(db.users, i, h.hash(newPassword.value))
          case Err(_) => Transition(InternalError, db)
          case Ok(users) => Transition(Reply(200, Message(PasswordUpdated)), db.(users := users))
  }

  /** `POST /addproduct`: save a new product and answer 201 with its id only once the
      save succeeded; a refused save is never answered. */
  function AddProduct(db: Db, name: Option<string>, category: Option<string>, price: Option<real>, backend: Backend)
    : (t: Transition)
    ensures t.response.NoReply? ==> t.db == db
    ensures t.response.Reply? ==>
      && name.Some? && category.Some? && price.Some?
      && t.response == Reply(201, WithId(ProductAdded, db.nextId))
      && t.db == Db(db.users, db.products + [ProductModel.ProductDoc(db.nextId, name.value, category.value, price.value)],
                    db.nextId + 1)
    ensures Valid(db) ==>
      (t.response.Reply? <==>
         && backend == Reachable && RequiredString(name) && RequiredString(category) && price.Some?
         && !ProductModel.NameTaken(db.products, name.value))
    ensures Valid(db) ==> Valid(t.db)
  {
    FreshId(db);
    if backend != Reachable then Transition(NoReply, db)
    else
      var saved := ProductModel.Create(db.products, db.nextId, name, category, price);
      if saved.Err? then Transition(NoReply, db)
      else
        assert !ProductModel.NameTaken(db.products, name.value);
        Transition(Reply(201, WithId(ProductAdded, db.nextId)), db.(products := saved.value, nextId := db.nextId + 1))
  }

  /** `GET /products`: every stored product, or a 500 when the lookup fails. */
  function ListProducts(db: Db, backend: Backend): (t: Transition)
    ensures t.db == db
    ensures backend == Reachable <==> t.response.Reply? && t.response.status == 200
    ensures backend == Reachable ==> t.response.body == Products(db.products)
    ensures backend != Reachable ==> t.response == InternalError
  {
    if backend == Reachable then Transition(Reply(200, Products(db.products)), db)
    else Transition(InternalError, db)
  }
}
