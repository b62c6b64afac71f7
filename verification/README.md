# Messenger server, modelled in Dafny

This project models `server.py` of a small messenger backend as a state
machine. The backend is a Flask app with SQLite and Socket.IO. The state
holds three things:

- the `users` table, in rowid order, with phone as the UNIQUE key;
- the append-only `messages` table, with the clock behind `CURRENT_TIMESTAMP`;
- the set of connected Socket.IO peers.

Each handler is a pure transition that returns a response and a new state:
`register`, `login`, `get_users`, `handle_connect`, `handle_disconnect` and
`handle_send_message`.

Modules:

- `Fields` (fields.dfy): `Option`, Python's `not x` on string fields, payload dictionaries.
- `Schema` (schema.dfy): the two tables, the SQL statements the handlers run, and the database invariant `Valid`.
- `Directory` (directory.dfy): the HTTP handlers `register`, `login` and `get_users`.
- `Relay` (relay.dfy): the `send_message` handler, with its storage and broadcast.
- `Server` (server.dfy): one transition per incoming event, and runs of events.

Modelling choices:

- A request field read with `data.get` is an `Option<string>`. Python's `not x` test then means "absent or empty".
- `CURRENT_TIMESTAMP` is a natural-number clock in the database. A `ClockTick` event advances it, so timestamps never decrease in insertion order.
- The `id` of a message is its AUTOINCREMENT row number, which is its position in the log plus one.
- Latitude and longitude are opaque `Coord` values. They are stored and never computed with.
- Error and success texts are tags (`MissingFields`, `PhoneAlreadyRegistered`, `WrongCredentials`, `MissingRole`, `InvalidData`).
- The login history query has `ORDER BY timestamp ASC`. The model returns the matching rows in insertion order. `HistoryIsSorted` proves that this order is sorted by timestamp. SQL leaves the order of rows with equal timestamps open, and insertion order is one of the allowed orders.

## Model

| member | source | states |
|---|---|---|
| Schema.InsertUser | server.py:64-73 | The INSERT fails as a duplicate key exactly when the phone is already stored. Otherwise it appends exactly the given row, with all its columns, after the existing rows. The phone's row count rises by one, the phones stay unique, and neither the message log nor the clock changes. |
| Schema.AtMostOnePerPhone | server.py:24 | Under the UNIQUE constraint, no phone is held by more than one row. |
| Schema.CountPositive | server.py:24 | A phone has a positive row count exactly when some row holds it. |
| Schema.FindByCredentials | server.py:89-90 | The credentials query finds a row exactly when some row matches both phone and password exactly. The row it answers with is such a matching row, projected to (phone, role). |
| Schema.CredentialsMatchTheRow | server.py:89-92 | With unique phones, the credentials query answers with the one row holding that phone, provided the password matches. |
| Schema.ListByRole | server.py:134-139 | The role query lists exactly the (phone, role) of the rows whose stored role equals the parameter (exact, case-sensitive). No other row is listed, and every listed role is the parameter. |
| Schema.ListByRoleDistinct | server.py:134-139 | With unique phones, the role query lists no phone twice. |
| Schema.AppendMessage | server.py:172-178 | The message INSERT adds exactly one row, at the end. The row holds the given sender, receiver and body, the next AUTOINCREMENT id (row count plus one) and the current clock as its default timestamp (server.py:36-40). Earlier rows, the users and the clock are unchanged, and the database invariant is preserved. |
| Schema.Advance | server.py:40 | Time passing moves the timestamp clock forward, never back, and keeps the database invariant. |
| Schema.MessagesFor | server.py:94-100 | Every row of a login history involves the phone as sender or receiver. |
| Schema.HistorySelects | server.py:94-108 | The login history is exactly the log rows involving the phone: each one once, in log order, none omitted. |
| Schema.HistoryIsSorted | server.py:94-100 | Because timestamps never decrease along the log (server.py:40), the history in log order is ascending by timestamp, as ORDER BY demands. |
| Directory.Register | server.py:49-75 | A missing or empty phone or password gives 400 and leaves the state unchanged. A phone already stored gives 400 (duplicate) and leaves the state unchanged. Otherwise the answer is 201, exactly one row with the request's fields is appended, and the message log and clock are untouched. Registration keeps the database invariant. |
| Directory.RegisterTwice | server.py:64-75 | Registering one phone twice gives 201 and then 400 (duplicate), and exactly one row holds the phone afterwards. |
| Directory.RegisterThenLogin | server.py:67-92 | Right after a successful registration, a login with the same phone and password succeeds. It reports the role just stored and that phone's message history. |
| Directory.Login | server.py:78-119 | A missing or empty field gives 400. Otherwise the answer is 200 exactly when some row matches both phone and password. When no row matches, the answer is exactly 401 (wrong credentials) with no message list. The answer is always one of these three. A 200 reports the requested phone, and every listed message involves it. The database is never changed. |
| Directory.LoginAnswer | server.py:89-117 | A successful login reports the matched row's (phone, role). Its message list is the history of that phone: sorted by timestamp, and containing every log row that involves the phone. |
| Directory.GetUsers | server.py:122-141 | A missing or empty role gives 400. Otherwise the answer is 200 and lists exactly the stored users whose role equals the parameter, as (phone, role) pairs. |
| Directory.GetUsersDistinct | server.py:134-141 | In a valid database, `/users` never lists the same phone twice. |
| Relay.Broadcast | server.py:181 | The broadcast delivers `new_message` with the given payload to every connected peer, and to nobody else. |
| Relay.SendMessage | server.py:154-181 | A missing or empty sender, receiver or message gives a single `error` event to the originating peer only. Nothing is stored and nothing is broadcast. A valid event appends exactly one row with those three fields at the end of the log, leaving earlier rows untouched. Every connected peer, the sender included, then receives the unmodified inbound payload. Error events only ever go to the originating peer. |
| Relay.SendExtendsHistory | server.py:172-178 | After a stored message, the history of its sender and of its receiver grows by exactly that message, at the end, stamped with the current clock. Every other phone's history is unchanged. |
| Relay.ThreePeers | server.py:164-181 | A valid event `{sender: A, receiver: B, message: hi}` sent while peers 1, 2 and 3 are connected stores one row. All three peers receive the payload. |
| Server.Next | server.py:146-152 | Connect adds the peer and disconnect removes it, and neither touches the database. Login and `/users` leave the state unchanged. Only register adds users, and only send_message adds messages. Every event keeps the database invariant, and the tables only grow at their end. |
| Server.Run | server.py:21-42 | Any sequence of events keeps the database invariant and only appends to both tables. |
| Server.ReachableStatesValid | server.py:24 | In every state reachable from a fresh start, the database invariant holds and no phone has more than one user. |
| Server.DisconnectIdempotent | server.py:150-152 | Disconnecting a peer that has already been disconnected changes nothing. |

## Left out

- Flask routing, JSON parsing, CORS and HTTP plumbing (server.py:9-14, server.py:49-51). A body that is not JSON, or a field that is not a string, is not modelled. Responses are a datatype of outcomes.
- Socket.IO payloads that are not JSON objects, on which the handler's field reads raise (server.py:164). Payloads are string-to-string maps, so extra keys with non-string values, which the broadcast would echo unchanged (server.py:181), are not modelled.
- A `send_message` from a peer that is not in the connected set. The library cannot deliver one, but the model accepts it: the broadcast then skips that peer, while an error event still goes to it.
- Socket.IO transport. Connect and disconnect bookkeeping is done by the library and is modelled as adding to and removing from the peer set. Concurrent events are not modelled: events are processed one at a time, in arrival order.
- The value `handle_send_message` returns on bad input, `(None, 400)`, which Socket.IO would pass back as an acknowledgement. Only the `error` event is modelled.
- SQLite itself: the file-existence check, table creation and connection handling (server.py:16-45). The store is an in-memory value that starts empty. A failing INSERT of a message, which the handler does not catch, is not modelled.
- The `id` column of `users`, which no handler reads.
- The real `CURRENT_TIMESTAMP` format and its one-second resolution. The clock is a natural number advanced by `ClockTick` events. This assumes the system wall clock never steps back. `CURRENT_TIMESTAMP` is wall-clock UTC, and if it did step back, the login history's timestamp order (server.py:98) would no longer match insertion order.
- The Russian response texts and the `print` logging in the connect and disconnect handlers. Texts are tags, and logging is dropped.
- Latitude and longitude as REAL floats. They are opaque values that are carried along and never computed with.
- The `__main__` server startup (server.py:183-184).
- Directory.LoginAnswer: the order among history rows with equal timestamps is insertion order. SQL's ORDER BY leaves that order open, so this is one permitted answer, not the only one.
