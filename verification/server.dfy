/** The whole server as one state machine: the database, the set of
    connected Socket.IO peers, and one transition per incoming event.
    Events are taken one at a time, in arrival order.
 */
module Server {
  import opened Fields
  import opened Schema
  import Directory
  import Relay

  datatype State = State(db: Db, peers: set<Relay.Peer>)

  /** A freshly started server: empty tables, nobody connected. */
  const Init: State := State(Empty, {})

  /** Everything that can reach the server. `ClockTick` is time passing
      between two events, which is what moves CURRENT_TIMESTAMP. */
  datatype Input =
    | HttpRegister(registration: Directory.RegisterRequest)
    | HttpLogin(credentials: Directory.LoginRequest)
    | HttpUsers(role: Option<string>)
    | SocketConnect(peer: Relay.Peer)
    | SocketDisconnect(peer: Relay.Peer)
    | SocketSend(peer: Relay.Peer, payload: Payload)
    | ClockTick(elapsed: nat)

  datatype Output = Http(response: Directory.Response) | Socket(deliveries: set<Relay.Delivery>) | Quiet

  datatype Transition = Transition(output: Output, state: State)

  /** `t` keeps everything `s` had: rows are only ever added at the end of
      either table, and the clock never goes back. */
  ghost predicate Extends(s: State, t: State)
  {
    s.db.users <= t.db.users && s.db.messages <= t.db.messages && s.db.clock <= t.db.clock
  }

  /** One event. Connect and disconnect only change who is connected (the
      handlers themselves just log); login and `/users` change nothing. */
  function Next(s: State, e: Input): (t: Transition)
    ensures Valid(s.db) ==> Valid(t.state.db)
    ensures Extends(s, t.state)
    ensures e.HttpLogin? || e.HttpUsers? ==> t.state == s
    ensures e.SocketConnect? ==> t.state == s.(peers := s.peers + {e.peer}) && t.output == Quiet
    ensures e.SocketDisconnect? ==> t.state == s.(peers := s.peers - {e.peer}) && t.output == Quiet
    ensures !e.SocketConnect? && !e.SocketDisconnect? ==> t.state.peers == s.peers
    ensures !e.HttpRegister? ==> t.state.db.users == s.db.users
    ensures !e.SocketSend? ==> t.state.db.messages == s.db.messages
  {
    match e
    case HttpRegister(req) =>
      var reply := Directory.Register(s.db, req);
      Transition(Http(reply.response), s.(db := reply.db))
    case HttpLogin(req) => Transition(Http(Directory.Login(s.db, req)), s)
    case HttpUsers(role) => Transition(Http(Directory.GetUsers(s.db, role)), s)
    case SocketConnect(p) => Transition(Quiet, s.(peers := s.peers + {p}))
    case SocketDisconnect(p) => Transition(Quiet, s.(peers := s.peers - {p}))
    case SocketSend(p, payload) =>
      var relayed := Relay.SendMessage(s.db, s.peers, p, payload);
      Transition(Socket(relayed.deliveries), s.(db := relayed.db))
    case ClockTick(elapsed) => Transition(Quiet, s.(db := Advance(s.db, elapsed)))
  }

  datatype Trace = Trace(outputs: seq<Output>, state: State)

  /** A run of events processed in order. */
  function Run(s: State, es: seq<Input>): (r: Trace)
    ensures |r.outputs| == |es|
    ensures Valid(s.db) ==> Valid(r.state.db)
    ensures Extends(s, r.state)
    decreases |es|
  {
    if |es| == 0 then Trace([], s)
    else
      var t := Next(s, es[0]);
      var rest := Run(t.state, es[1..]);
      Trace([t.output] + rest.outputs, rest.state)
  }

  /** In every reachable state the database invariant holds; in particular
      no phone is held by more than one user. */
  lemma ReachableStatesValid(es: seq<Input>)
    ensures Valid(Run(Init, es).state.db)
    ensures forall phone :: CountPhone(Run(Init, es).state.db.users, phone) <= 1
  {
    var users := Run(Init, es).state.db.users;
    forall phone
      ensures CountPhone(users, phone) <= 1
    {
      AtMostOnePerPhone(users, phone);
    }
  }

  /** Disconnecting an already disconnected peer changes nothing. */
  lemma DisconnectIdempotent(s: State, p: Relay.Peer)
    ensures var once := Next(s, SocketDisconnect(p)).state;
            Next(once, SocketDisconnect(p)).state == once
  {
  }
}
