/** The durable store: the `users` and `messages` tables and the SQL
    statements the handlers run against them.

    The `users` table is kept in rowid order, so the UNIQUE constraint on
    `phone` is an invariant of the table rather than a property of the
    container. The `messages` table only ever grows at its end. Its `id` is
    the AUTOINCREMENT row number. Its `timestamp` is the store's clock at
    insert time, and that clock never goes back.
 */
module Schema {
  import opened Fields

  type Phone = string

  /** A REAL column (latitude, longitude). It is stored and never computed with. */
  datatype Coord = Coord(literal: string)

  /** One row of `users`. A NULL column is `None`. The password is stored verbatim. */
  datatype User = User(
    phone: Phone,
    country: Option<string>,
    city: Option<string>,
    role: Option<string>,
    language: Option<string>,
    password: string,
    latitude: Option<Coord>,
    longitude: Option<Coord>)

  /** One row of `messages`. */
  datatype Message = Message(id: nat, sender: string, receiver: string, body: string, timestamp: nat)

  /** One row of the login history: sender, receiver, body and timestamp. */
  datatype Entry = Entry(sender: string, receiver: string, body: string, timestamp: nat)

  /** A user projected to phone and role, as the login and listing queries return it. */
  datatype Summary = Summary(phone: Phone, role: Option<string>)

  /** The database: both tables and the clock behind CURRENT_TIMESTAMP. */
  datatype Db = Db(users: seq<User>, messages: seq<Message>, clock: nat)

  /** The freshly created database (`init_db` on a missing file). */
  const Empty: Db := Db([], [], 0)

  // ---------- users ----------

  ghost predicate UniquePhones(users: seq<User>)
  {
    forall i, j :: 0 <= i < j < |users| ==> users[i].phone != users[j].phone
  }

  predicate PhoneTaken(users: seq<User>, phone: Phone)
  {
    exists i :: 0 <= i < |users| && users[i].phone == phone
  }

  /** The number of rows of `users` holding `phone`. */
  function CountPhone(users: seq<User>, phone: Phone): nat
  {
    if |users| == 0 then 0
    else CountPhone(users[..|users| - 1], phone) + (if users[|users| - 1].phone == phone then 1 else 0)
  }

  lemma {:induction false} CountPositive(users: seq<User>, phone: Phone)
    ensures CountPhone(users, phone) > 0 <==> PhoneTaken(users, phone)
  {
    if |users| > 0 {
      var front := users[..|users| - 1];
      CountPositive(front, phone);
      if PhoneTaken(front, phone) {
        var i :| 0 <= i < |front| && front[i].phone == phone;
        assert users[i].phone == phone;
      }
      if PhoneTaken(users, phone) && users[|users| - 1].phone != phone {
        var i :| 0 <= i < |users| && users[i].phone == phone;
        assert front[i].phone == phone;
      }
    }
  }

  /** The UNIQUE constraint read as a count: no phone occurs in two rows. */
  lemma {:induction false} AtMostOnePerPhone(users: seq<User>, phone: Phone)
    requires UniquePhones(users)
    ensures CountPhone(users, phone) <= 1
  {
    if |users| > 0 {
      var front := users[..|users| - 1];
      assert UniquePhones(front);
      AtMostOnePerPhone(front, phone);
      if users[|users| - 1].phone == phone {
        assert !PhoneTaken(front, phone) by {
          forall i | 0 <= i < |front|
            ensures front[i].phone != phone
          {
            assert users[i].phone != users[|users| - 1].phone;
          }
        }
        CountPositive(front, phone);
      }
    }
  }

  /** Outcome of an INSERT into `users`. */
  datatype Insertion = Inserted(db: Db) | DuplicateKey

  /** Adding a user row: the uniqueness constraint on the phone column makes
      the insert fail when the phone is already present; otherwise the row is
      added at the end and nothing else changes. */
  function InsertUser(db: Db, u: User): (r: Insertion)
    ensures r.DuplicateKey? <==> PhoneTaken(db.users, u.phone)
    ensures r.Inserted? ==> CountPhone(r.db.users, u.phone) == CountPhone(db.users, u.phone) + 1
    ensures r.Inserted? ==> UniquePhones(db.users) ==> UniquePhones(r.db.users)
    ensures r.Inserted? ==> r.db.messages == db.messages && r.db.clock == db.clock
    ensures r.Inserted? ==> r.db.users == db.users + [u]
  {
    if PhoneTaken(db.users, u.phone) then DuplicateKey
    else
      var users := db.users + [u];
      assert users[..|users| - 1] == db.users;
      Inserted(db.(users := users))
  }

  /** The credentials query: the first row, in table order, whose phone and
      password both equal the given ones, projected to phone and role. */
  function FindByCredentials(users: seq<User>, phone: Phone, password: string): (r: Option<Summary>)
    ensures r.Some? <==> exists i :: 0 <= i < |users| && users[i].phone == phone && users[i].password == password
    ensures r.Some? ==> exists i :: 0 <= i < |users| && users[i].phone == phone && users[i].password == password
                                    && r.value == Summary(users[i].phone, users[i].role)
  {
    if |users| == 0 then None
    else
      var front := users[..|users| - 1];
      var last := users[|users| - 1];
      match FindByCredentials(front, phone, password)
      case Some(s) => Some(s)
      case None =>
        if last.phone == phone && last.password == password then Some(Summary(last.phone, last.role)) else None
  }

  /** With unique phones, the credentials query answers with the one row holding the phone. */
  lemma CredentialsMatchTheRow(users: seq<User>, i: nat, password: string)
    requires UniquePhones(users)
    requires i < |users| && users[i].password == password
    ensures FindByCredentials(users, users[i].phone, password) == Some(Summary(users[i].phone, users[i].role))
  {
    var r := FindByCredentials(users, users[i].phone, password);
    var j :| 0 <= j < |users| && users[j].phone == users[i].phone && users[j].password == password
             && r.value == Summary(users[j].phone, users[j].role);
    assert i == j;
  }

  /** The role query: phone and role of every row whose role equals the
      given one, in table order. */
  function ListByRole(users: seq<User>, role: string): (r: seq<Summary>)
    ensures forall x :: x in r <==> exists i :: 0 <= i < |users| && users[i].role == Some(role) && x == Summary(users[i].phone, users[i].role)
    ensures forall k :: 0 <= k < |r| ==> r[k].role == Some(role)
    ensures |r| <= |users|
  {
    if |users| == 0 then []
    else
      var front := users[..|users| - 1];
      var last := users[|users| - 1];
      var rest := ListByRole(front, role);
      assert forall i :: 0 <= i < |front| ==> front[i] == users[i];
      if last.role == Some(role) then rest + [Summary(last.phone, last.role)] else rest
  }

  ghost predicate DistinctPhones(r: seq<Summary>)
  {
    forall k, l :: 0 <= k < l < |r| ==> r[k].phone != r[l].phone
  }

  /** With unique phones, no user is listed twice. */
  lemma {:induction false} ListByRoleDistinct(users: seq<User>, role: string)
    requires UniquePhones(users)
    ensures DistinctPhones(ListByRole(users, role))
  {
    if |users| > 0 {
      var front := users[..|users| - 1];
      var last := users[|users| - 1];
      assert UniquePhones(front);
      ListByRoleDistinct(front, role);
      var rest := ListByRole(front, role);
      if last.role == Some(role) {
        assert ListByRole(users, role) == rest + [Summary(last.phone, last.role)];
        forall k | 0 <= k < |rest|
          ensures rest[k].phone != last.phone
        {
          assert rest[k] in rest;
          var i :| 0 <= i < |front| && front[i].role == Some(role) && rest[k] == Summary(front[i].phone, front[i].role);
          assert users[i].phone != users[|users| - 1].phone;
        }
        var r := ListByRole(users, role);
        forall k, l | 0 <= k < l < |r|
          ensures r[k].phone != r[l].phone
        {
          if l == |rest| {
            assert r[k] == rest[k] && r[l].phone == last.phone;
          } else {
            assert r[k] == rest[k] && r[l] == rest[l];
          }
        }
      } else {
        assert ListByRole(users, role) == rest;
      }
    }
  }

  // ---------- messages ----------

  ghost predicate Numbered(messages: seq<Message>)
  {
    forall i :: 0 <= i < |messages| ==> messages[i].id == i + 1
  }

  ghost predicate Chronological(messages: seq<Message>)
  {
    forall i, j :: 0 <= i < j < |messages| ==> messages[i].timestamp <= messages[j].timestamp
  }

  /** Every stored message passed the send handler's check: no field is empty. */
  ghost predicate Filled(messages: seq<Message>)
  {
    forall i :: 0 <= i < |messages| ==> messages[i].sender != "" && messages[i].receiver != "" && messages[i].body != ""
  }

  /** What every reachable database satisfies. */
  ghost predicate Valid(db: Db)
  {
    && UniquePhones(db.users)
    && (forall i :: 0 <= i < |db.users| ==> db.users[i].phone != "" && db.users[i].password != "")
    && Numbered(db.messages)
    && Chronological(db.messages)
    && Filled(db.messages)
    && (forall i :: 0 <= i < |db.messages| ==> db.messages[i].timestamp <= db.clock)
  }

  /** Storing a chat message: the store assigns the next row number as id
      and the current clock as timestamp. */
  function AppendMessage(db: Db, sender: string, receiver: string, body: string): (r: Db)
    ensures |r.messages| == |db.messages| + 1 && r.messages[..|db.messages|] == db.messages
    ensures r.messages[|db.messages|] == Message(|db.messages| + 1, sender, receiver, body, db.clock)
    ensures r.users == db.users && r.clock == db.clock
    ensures Valid(db) && sender != "" && receiver != "" && body != "" ==> Valid(r)
  {
    var m := Message(|db.messages| + 1, sender, receiver, body, db.clock);
    assert (db.messages + [m])[..|db.messages|] == db.messages;
    db.(messages := db.messages + [m])
  }

  /** Time passing between events: the clock behind CURRENT_TIMESTAMP moves forward. */
  function Advance(db: Db, elapsed: nat): (r: Db)
    ensures r.users == db.users && r.messages == db.messages && r.clock >= db.clock
    ensures Valid(db) ==> Valid(r)
  {
    db.(clock := db.clock + elapsed)
  }

  predicate Involves(m: Message, phone: Phone)
  {
    m.sender == phone || m.receiver == phone
  }

  function Project(m: Message): Entry
  {
    Entry(m.sender, m.receiver, m.body, m.timestamp)
  }

  /** The history query: every message the phone sent or received, in
      ascending timestamp order. It is computed as the matching rows in
      insertion order; `HistoryIsSorted` shows this is an order the query may
      return. */
  function MessagesFor(messages: seq<Message>, phone: Phone): (h: seq<Entry>)
    ensures forall k :: 0 <= k < |h| ==> h[k].sender == phone || h[k].receiver == phone
    ensures |h| <= |messages|
  {
    if |messages| == 0 then []
    else
      var last := messages[|messages| - 1];
      MessagesFor(messages[..|messages| - 1], phone) + (if Involves(last, phone) then [Project(last)] else [])
  }

  ghost predicate SortedByTime(h: seq<Entry>)
  {
    forall k, l :: 0 <= k < l < |h| ==> h[k].timestamp <= h[l].timestamp
  }

  /** The history is exactly the log rows that involve `phone`, each once, in
      log order: `idx` lists their positions, strictly increasing, and every
      involving position is among them. */
  lemma {:induction false} HistorySelects(messages: seq<Message>, phone: Phone) returns (idx: seq<nat>)
    ensures var h := MessagesFor(messages, phone);
            && |idx| == |h|
            && (forall k :: 0 <= k < |idx| ==> idx[k] < |messages| && Involves(messages[idx[k]], phone) && h[k] == Project(messages[idx[k]]))
            && (forall k, l :: 0 <= k < l < |idx| ==> idx[k] < idx[l])
            && (forall i :: 0 <= i < |messages| && Involves(messages[i], phone) ==> i in idx)
  {
    if |messages| == 0 {
      idx := [];
    } else {
      var n := |messages| - 1;
      var front := messages[..n];
      var prev := HistorySelects(front, phone);
      assert forall i :: 0 <= i < n ==> front[i] == messages[i];
      if Involves(messages[n], phone) {
        idx := prev + [n];
      } else {
        idx := prev;
      }
    }
  }

  /** Because timestamps never decrease along the log, the history in log
      order already satisfies ORDER BY timestamp ASC. */
  lemma HistoryIsSorted(messages: seq<Message>, phone: Phone)
    requires Chronological(messages)
    ensures SortedByTime(MessagesFor(messages, phone))
  {
    var h := MessagesFor(messages, phone);
    var idx := HistorySelects(messages, phone);
    forall k, l | 0 <= k < l < |h|
      ensures h[k].timestamp <= h[l].timestamp
    {
      assert idx[k] < idx[l];
    }
  }
}
