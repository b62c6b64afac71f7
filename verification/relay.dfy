/** The Socket.IO `send_message` handler: validate, store, then fan out.

    The channel binds no identity to a peer: whatever `sender` the payload
    claims is stored. A valid event is broadcast, unchanged, to every
    connected peer, the one that sent it included. An invalid one produces a
    single `error` event for the peer that sent it, and nothing is stored.
 */
module Relay {
  import opened Fields
  import opened Schema

  /** A connected Socket.IO client. */
  type Peer = nat

  /** Outbound events: `new_message` with the inbound payload, or `error`
      with the fixed "invalid data" reason. */
  datatype Event = NewMessage(payload: Payload) | InvalidData

  datatype Delivery = Delivery(peer: Peer, event: Event)

  datatype Relayed = Relayed(deliveries: set<Delivery>, db: Db)

  /** The handler's guard: sender, receiver and message all present and non-empty. */
  predicate WellFormed(payload: Payload)
  {
    Given(Get(payload, "sender")) && Given(Get(payload, "receiver")) && Given(Get(payload, "message"))
  }

  /** The broadcast of a stored message: one `new_message` delivery per connected peer. */
  function Broadcast(peers: set<Peer>, payload: Payload): (r: set<Delivery>)
    ensures forall d :: d in r <==> d.peer in peers && d.event == NewMessage(payload)
  {
    set p | p in peers :: Delivery(p, NewMessage(payload))
  }

  /** A `send_message` event from `origin` while `peers` are connected. */
  function SendMessage(db: Db, peers: set<Peer>, origin: Peer, payload: Payload): (r: Relayed)
    ensures !WellFormed(payload) ==> r.deliveries == {Delivery(origin, InvalidData)} && r.db == db
    ensures WellFormed(payload) ==>
              && |r.db.messages| == |db.messages| + 1
              && r.db.messages[..|db.messages|] == db.messages
              && r.db.messages[|db.messages|].sender == payload["sender"]
              && r.db.messages[|db.messages|].receiver == payload["receiver"]
              && r.db.messages[|db.messages|].body == payload["message"]
              && (forall d :: d in r.deliveries <==> d.peer in peers && d.event == NewMessage(payload))
    ensures r.db.users == db.users && r.db.clock == db.clock
    ensures forall d :: d in r.deliveries && d.event == InvalidData ==> d.peer == origin
    ensures Valid(db) ==> Valid(r.db)
  {
    if !WellFormed(payload) then Relayed({Delivery(origin, InvalidData)}, db)
    else
      var db' := AppendMessage(db, payload["sender"], payload["receiver"], payload["message"]);
      Relayed(Broadcast(peers, payload), db')
  }

  /** Send then login: a stored message shows up at the end of the history of
      its sender and of its receiver, and every other history is unchanged. */
  lemma SendExtendsHistory(db: Db, peers: set<Peer>, origin: Peer, payload: Payload, phone: Phone)
    requires Valid(db)
    requires WellFormed(payload)
    ensures var after := MessagesFor(SendMessage(db, peers, origin, payload).db.messages, phone);
            var before := MessagesFor(db.messages, phone);
            var sent := Entry(payload["sender"], payload["receiver"], payload["message"], db.clock);
            after == if sent.sender == phone || sent.receiver == phone then before + [sent] else before
  {
    var msgs := SendMessage(db, peers, origin, payload).db.messages;
    assert msgs[..|msgs| - 1] == db.messages;
    assert msgs[|msgs| - 1].timestamp == db.clock by {
      assert msgs == db.messages + [msgs[|msgs| - 1]];
    }
  }

  /** The three-peer scenario: a valid chat event while peers 1, 2 and 3 are
      connected stores one row and reaches all three, sender included. */
  lemma ThreePeers(db: Db)
    requires Valid(db)
    ensures var payload := map["sender" := "A", "receiver" := "B", "message" := "hi"];
            var r := SendMessage(db, {1, 2, 3}, 1, payload);
            && |r.db.messages| == |db.messages| + 1
            && r.deliveries == {Delivery(1, NewMessage(payload)), Delivery(2, NewMessage(payload)), Delivery(3, NewMessage(payload))}
  {
    var payload := map["sender" := "A", "receiver" := "B", "message" := "hi"];
    assert Get(payload, "sender") == Some("A");
    assert Get(payload, "receiver") == Some("B");
    assert Get(payload, "message") == Some("hi");
    assert WellFormed(payload);
  }
}
