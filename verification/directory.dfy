/** The request/response handlers: `/register`, `/login` and `/users`.

    Each handler is a pure function of the database and the request. Only
    `Register` returns a new database; `Login` and `GetUsers` only read.
 */
module Directory {
  import opened Fields
  import opened Schema

  /** The JSON body of `POST /register`, one `data.get` per field. */
  datatype RegisterRequest = RegisterRequest(
    phone: Option<string>,
    country: Option<string>,
    city: Option<string>,
    role: Option<string>,
    language: Option<string>,
    password: Option<string>,
    latitude: Option<Coord>,
    longitude: Option<Coord>)

  /** The JSON body of `POST /login`. */
  datatype LoginRequest = LoginRequest(phone: Option<string>, password: Option<string>)

  /** The human-readable reasons the handlers return, one tag per message. */
  datatype Failure = MissingFields | PhoneAlreadyRegistered | WrongCredentials | MissingRole

  /** An HTTP response: status and JSON body. */
  datatype Response =
    | Created
    | LoggedIn(user: Summary, messages: seq<Entry>)
    | UserList(users: seq<Summary>)
    | BadRequest(error: Failure)
    | Unauthorized(error: Failure)

  function Status(r: Response): nat
  {
    match r
    case Created => 201
    case LoggedIn(_, _) => 200
    case UserList(_) => 200
    case BadRequest(_) => 400
    case Unauthorized(_) => 401
  }

  datatype Reply = Reply(response: Response, db: Db)

  /** The row `register` inserts: every field as sent, absent ones as NULL. */
  function NewUser(req: RegisterRequest): User
    requires Given(req.phone) && Given(req.password)
  {
    User(req.phone.value, req.country, req.city, req.role, req.language,
         req.password.value, req.latitude, req.longitude)
  }

  /** `POST /register`. */
  function Register(db: Db, req: RegisterRequest): (r: Reply)
    ensures Status(r.response) == 201 || Status(r.response) == 400
    ensures r.response == Created <==> Given(req.phone) && Given(req.password) && !PhoneTaken(db.users, req.phone.value)
    ensures !Given(req.phone) || !Given(req.password) ==> r.response == BadRequest(MissingFields)
    ensures Given(req.phone) && Given(req.password) && PhoneTaken(db.users, req.phone.value)
            ==> r.response == BadRequest(PhoneAlreadyRegistered)
    ensures r.response != Created ==> r.db == db
    ensures r.response == Created ==> r.db.users == db.users + [NewUser(req)]
    ensures r.db.messages == db.messages && r.db.clock == db.clock
    ensures Valid(db) ==> Valid(r.db)
  {
    if !Given(req.phone) || !Given(req.password) then Reply(BadRequest(MissingFields), db)
    else
      match InsertUser(db, NewUser(req))
      case DuplicateKey => Reply(BadRequest(PhoneAlreadyRegistered), db)
      case Inserted(db') => Reply(Created, db')
  }

  /** `POST /login`. */
  function Login(db: Db, req: LoginRequest): (r: Response)
    ensures Status(r) == 200 || Status(r) == 400 || Status(r) == 401
    ensures r.BadRequest? <==> !Given(req.phone) || !Given(req.password)
    ensures r.BadRequest? ==> r.error == MissingFields
    ensures Given(req.phone) && Given(req.password) ==>
              (r.LoggedIn? <==> exists i :: 0 <= i < |db.users| && db.users[i].phone == req.phone.value
                                                                  && db.users[i].password == req.password.value)
    ensures Given(req.phone) && Given(req.password) &&
            !(exists i :: 0 <= i < |db.users| && db.users[i].phone == req.phone.value
                                               && db.users[i].password == req.password.value)
            ==> r == Unauthorized(WrongCredentials)
    ensures r.BadRequest? || r.LoggedIn? || r.Unauthorized?
    ensures r.Unauthorized? ==> r.error == WrongCredentials
    ensures r.LoggedIn? ==> r.user.phone == req.phone.value
    ensures r.LoggedIn? ==> forall k :: 0 <= k < |r.messages| ==>
              r.messages[k].sender == req.phone.value || r.messages[k].receiver == req.phone.value
  {
    if !Given(req.phone) || !Given(req.password) then BadRequest(MissingFields)
    else
      var phone := req.phone.value;
      match FindByCredentials(db.users, phone, req.password.value)
      case Some(user) =>
        LoggedIn(user, MessagesFor(db.messages, phone))
      case None => Unauthorized(WrongCredentials)
  }

  /** A successful login answers with the matched row's phone and role, and
      its message list is the log rows involving that phone, each once, in
      ascending timestamp order. */
  lemma LoginAnswer(db: Db, req: LoginRequest, i: nat)
    requires Valid(db)
    requires Given(req.phone) && Given(req.password)
    requires i < |db.users| && db.users[i].phone == req.phone.value && db.users[i].password == req.password.value
    ensures var r := Login(db, req);
            && r.LoggedIn?
            && r.user == Summary(db.users[i].phone, db.users[i].role)
            && SortedByTime(r.messages)
            && r.messages == MessagesFor(db.messages, req.phone.value)
            && (forall m :: m in db.messages && Involves(m, req.phone.value) ==> Project(m) in r.messages)
  {
    CredentialsMatchTheRow(db.users, i, req.password.value);
    HistoryIsSorted(db.messages, req.phone.value);
    var idx := HistorySelects(db.messages, req.phone.value);
    var h := MessagesFor(db.messages, req.phone.value);
    forall m | m in db.messages && Involves(m, req.phone.value)
      ensures Project(m) in h
    {
      var j :| 0 <= j < |db.messages| && db.messages[j] == m;
      assert j in idx;
      var k :| 0 <= k < |idx| && idx[k] == j;
      assert h[k] == Project(m);
    }
  }

  /** Round trip: right after a successful registration, logging in with the
      same phone and password succeeds and reports the role just stored. */
  lemma RegisterThenLogin(db: Db, req: RegisterRequest)
    requires Valid(db)
    requires Register(db, req).response == Created
    ensures Login(Register(db, req).db, LoginRequest(req.phone, req.password))
            == LoggedIn(Summary(req.phone.value, req.role), MessagesFor(db.messages, req.phone.value))
  {
    var db' := Register(db, req).db;
    CredentialsMatchTheRow(db'.users, |db.users|, req.password.value);
  }

  /** Registering one phone twice: the first call creates the row, the second
      is refused as a duplicate, and exactly one row holds the phone. */
  lemma RegisterTwice(db: Db, first: RegisterRequest, second: RegisterRequest)
    requires Valid(db)
    requires Given(first.phone) && Given(first.password) && !PhoneTaken(db.users, first.phone.value)
    requires second.phone == first.phone && Given(second.password)
    ensures Register(db, first).response == Created
    ensures var db' := Register(db, first).db;
            && Register(db', second) == Reply(BadRequest(PhoneAlreadyRegistered), db')
            && CountPhone(db'.users, first.phone.value) == 1
  {
    var db' := Register(db, first).db;
    assert db'.users[|db.users|].phone == first.phone.value;
    CountPositive(db.users, first.phone.value);
  }

  /** `GET /users?role=...`. */
  function GetUsers(db: Db, role: Option<string>): (r: Response)
    ensures Status(r) == 200 || Status(r) == 400
    ensures r == BadRequest(MissingRole) <==> !Given(role)
    ensures Given(role) ==> r.UserList?
    ensures r.UserList? ==> forall x :: x in r.users <==> exists i :: 0 <= i < |db.users| && db.users[i].role == role
                                                                 && x == Summary(db.users[i].phone, db.users[i].role)
    ensures r.UserList? ==> forall k :: 0 <= k < |r.users| ==> r.users[k].role == role
  {
    if !Given(role) then BadRequest(MissingRole)
    else
      UserList(ListByRole(db.users, role.value))
  }

  /** Since phones are unique, `/users` never lists a user twice. */
  lemma GetUsersDistinct(db: Db, role: Option<string>)
    requires Valid(db)
    ensures GetUsers(db, role).UserList? ==> DistinctPhones(GetUsers(db, role).users)
  {
    if Given(role) {
      ListByRoleDistinct(db.users, role.value);
    }
  }
}
