/**
 The server as a sequential state machine: each request is one atomic
 transition of the database, dispatched to its route handler.
 */
module App {
  import opened Common
  import opened Bcrypt
  import opened Jwt
  import opened Server
  import UserModel
  import ProductModel

  /** The routes, each with the parts of the request its handler reads. */
  datatype Request =
    | RegisterRequest(Option<string>, Option<string>)                     // body.email, body.password
    | LoginRequest(string, Option<string>)                                // body.email, body.password
    | TestUserRequest(Option<string>)                                     // Authorization header
    | ChangePasswordRequest(PathId, Option<string>, Option<string>)       // :id, currentPassword, newPassword
    | AddProductRequest(Option<string>, Option<string>, Option<real>)     // body.name, body.category, body.price
    | ProductsRequest

  /** A request as it arrives: the clock (seconds) and whether the database answers. */
  datatype Call = Call(request: Request, now: int, backend: Backend)

  /** The fixed collaborators: the password hasher and the token parser. */
  datatype Env = Env(hasher: Hasher, decode: string -> Option<Token>)

  datatype Trace = Trace(responses: seq<Response>, db: Db)

  /** Nothing stored is ever lost: users keep their index, id and email (only the
      password digest may change), products are never touched, ids only move forward. */
  ghost predicate Grows(db: Db, db': Db) {
    && |db.users| <= |db'.users|
    && (forall i :: 0 <= i < |db.users| ==> db'.users[i].id == db.users[i].id && db'.users[i].email == db.users[i].email)
    && db.products <= db'.products
    && db.nextId <= db'.nextId
  }

  /** One request against the database. */
  function Handle(db: Db, env: Env, call: Call): (t: Transition)
    ensures Valid(db) ==> Valid(t.db)
    ensures Grows(db, t.db)
    ensures !call.request.RegisterRequest? && !call.request.ChangePasswordRequest? && !call.request.AddProductRequest? ==>
      t.db == db
  {
    match call.request
    case RegisterRequest(email, password) => Register(db, email, password, env.hasher, call.backend)
    case LoginRequest(email, password) => Login(db, email, password, env.hasher, call.now, call.backend)
    case TestUserRequest(header) => TestUser(db, header, env.decode, call.now)
    case ChangePasswordRequest(id, current, next) => ChangePassword(db, id, current, next, env.hasher, call.backend)
    case AddProductRequest(name, category, price) => AddProduct(db, name, category, price, call.backend)
    case ProductsRequest => ListProducts(db, call.backend)
  }

  /** A sequence of requests handled one after the other; one response per request. */
  function Run(db: Db, env: Env, calls: seq<Call>): (r: Trace)
    ensures |r.responses| == |calls|
    ensures Valid(db) ==> Valid(r.db)
    ensures Grows(db, r.db)
    decreases |calls|
  {
    if |calls| == 0 then Trace([], db)
    else
      var t := Handle(db, env, calls[0]);
      var rest := Run(t.db, env, calls[1..]);
      Trace([t.response] + rest.responses, rest.db)
  }

  /** The empty database, where every run starts. */
  function Empty(): (db: Db)
    ensures Valid(db) && |db.users| == 0 && |db.products| == 0
  {
    Db([], [], 0)
  }

  /** From the empty database, however the requests interleave, no email is ever held
      by two users and no product name by two products. */
  lemma {:induction false} UniqueAfterAnyRun(env: Env, calls: seq<Call>, i: nat, j: nat)
    requires var db := Run(Empty(), env, calls).db; i < j < |db.users|
    ensures var db := Run(Empty(), env, calls).db;
      db.users[i].email != db.users[j].email && db.users[i].id != db.users[j].id
    ensures var db := Run(Empty(), env, calls).db;
      forall a, b :: 0 <= a < b < |db.products| ==> db.products[a].name != db.products[b].name
  {
    var db := Run(Empty(), env, calls).db;
    assert UserModel.Valid(db.users);
    assert ProductModel.Valid(db.products);
  }
}
