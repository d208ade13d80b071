/**
 * The real-time connection registry: a table from client ID to connected client,
 * updated by registration, unregistration and broadcast, plus the read loop that
 * serves one connection.  Each case of the manager's event loop is one atomic
 * method; connection writes succeed or fail as an oracle says, and every write and
 * close is recorded in a ghost log.
 */
module Realtime {

  import opened Wrappers
  import AuthMiddleware

  /** Identity of one WebSocket connection. */
  type ConnId = nat

  datatype Client = Client(id: string, conn: ConnId, userId: string)

  /** A chat message as it travels over the socket; time in seconds. */
  datatype Message = Message(
    id: string,
    senderId: string,
    receiverId: string,
    content: string,
    timestamp: int,
    read: bool,
    kind: string)

  /** What happened on a connection: a write (with its outcome) or a close. */
  datatype Event = Wrote(conn: ConnId, msg: Message, ok: bool) | Closed(conn: ConnId)

  /** A message the server itself sends on one connection: only its type, content and time are set. */
  function ServerMessage(kind: string, content: string, now: int): Message
  {
    Message("", "", "", content, now, false, kind)
  }

  /** The confirmation sent to a newly registered client. */
  function Confirmation(now: int): (m: Message)
    ensures m.kind == "system" && m.content == "Connected successfully" && m.timestamp == now
    ensures m.id == "" && m.senderId == "" && m.receiverId == "" && !m.read
  {
    ServerMessage("system", "Connected successfully", now)
  }

  /** The reply to a ping. */
  function Pong(now: int): (m: Message)
    ensures m.kind == "pong" && m.content == "pong" && m.timestamp == now
    ensures m.id == "" && m.senderId == "" && m.receiverId == "" && !m.read
  {
    ServerMessage("pong", "pong", now)
  }

  /** A client receives a broadcast message when its user is the receiver or the sender. */
  predicate Addressed(c: Client, msg: Message)
  {
    c.userId == msg.receiverId || c.userId == msg.senderId
  }

  predicate Distinct(ids: seq<string>)
  {
    forall i, j :: 0 <= i < j < |ids| ==> ids[i] != ids[j]
  }

  /** The events of one broadcast delivery: the write, then a close when the write failed. */
  function Delivery(c: Client, msg: Message, failing: set<ConnId>): (es: seq<Event>)
    ensures |es| == if c.conn in failing then 2 else 1
    ensures es[0] == Wrote(c.conn, msg, c.conn !in failing)
  {
    [Wrote(c.conn, msg, c.conn !in failing)] + (if c.conn in failing then [Closed(c.conn)] else [])
  }

  /** The events of delivering `msg` to the clients `ids`, in that order. */
  function Deliveries(ids: seq<string>, cs: map<string, Client>, msg: Message, failing: set<ConnId>): seq<Event>
    requires forall i :: 0 <= i < |ids| ==> ids[i] in cs
  {
    if ids == [] then [] else Delivery(cs[ids[0]], msg, failing) + Deliveries(ids[1..], cs, msg, failing)
  }

  /** The writes of a notification to the clients `ids`, in that order. */
  function Notifications(ids: seq<string>, cs: map<string, Client>, msg: Message, failing: set<ConnId>): seq<Event>
    requires forall i :: 0 <= i < |ids| ==> ids[i] in cs
  {
    if ids == [] then []
    else [Wrote(cs[ids[0]].conn, msg, cs[ids[0]].conn !in failing)] + Notifications(ids[1..], cs, msg, failing)
  }

  lemma {:induction false} DeliveriesSnoc(ids: seq<string>, id: string, cs: map<string, Client>, msg: Message, failing: set<ConnId>)
    requires forall i :: 0 <= i < |ids| ==> ids[i] in cs
    requires id in cs
    ensures Deliveries(ids + [id], cs, msg, failing) == Deliveries(ids, cs, msg, failing) + Delivery(cs[id], msg, failing)
  {
    if ids != [] {
      assert (ids + [id])[1..] == ids[1..] + [id];
      DeliveriesSnoc(ids[1..], id, cs, msg, failing);
    }
  }

  lemma {:induction false} NotificationsSnoc(ids: seq<string>, id: string, cs: map<string, Client>, msg: Message, failing: set<ConnId>)
    requires forall i :: 0 <= i < |ids| ==> ids[i] in cs
    requires id in cs
    ensures Notifications(ids + [id], cs, msg, failing)
            == Notifications(ids, cs, msg, failing) + [Wrote(cs[id].conn, msg, cs[id].conn !in failing)]
  {
    if ids != [] {
      assert (ids + [id])[1..] == ids[1..] + [id];
      NotificationsSnoc(ids[1..], id, cs, msg, failing);
    }
  }

  lemma {:induction false} AppendAssoc(a: seq<Event>, b: seq<Event>, c: seq<Event>)
    ensures (a + b) + c == a + (b + c)
  {
  }

  /** The table after a broadcast: the addressed clients whose write failed are gone. */
  function AfterBroadcast(cs: map<string, Client>, msg: Message, failing: set<ConnId>): map<string, Client>
  {
    map id | id in cs && !(Addressed(cs[id], msg) && cs[id].conn in failing) :: cs[id]
  }

  /** The clients left while a broadcast still has `pending` to visit: every visited client whose write failed is gone. */
  function Survivors(cs: map<string, Client>, pending: set<string>, msg: Message, failing: set<ConnId>): map<string, Client>
  {
    map id | id in cs && (id in pending || !(Addressed(cs[id], msg) && cs[id].conn in failing)) :: cs[id]
  }

  lemma {:induction false} SurvivorsBounds(cs: map<string, Client>, msg: Message, failing: set<ConnId>)
    ensures Survivors(cs, cs.Keys, msg, failing) == cs
    ensures Survivors(cs, {}, msg, failing) == AfterBroadcast(cs, msg, failing)
  {
  }

  /** Visiting one pending client removes it exactly when it is addressed and its write fails. */
  lemma {:induction false} SurvivorsStep(cs: map<string, Client>, pending: set<string>, id: string, msg: Message, failing: set<ConnId>)
    requires id in pending && id in cs
    ensures id in Survivors(cs, pending, msg, failing) && Survivors(cs, pending, msg, failing)[id] == cs[id]
    ensures Survivors(cs, pending - {id}, msg, failing)
            == if Addressed(cs[id], msg) && cs[id].conn in failing
               then Survivors(cs, pending, msg, failing) - {id}
               else Survivors(cs, pending, msg, failing)
  {
  }

  /**
   * A broadcast keeps every client it does not address and every addressed client
   * whose write succeeded, drops exactly the addressed clients whose write failed,
   * and never changes a kept entry.
   */
  lemma {:induction false} BroadcastEviction(cs: map<string, Client>, msg: Message, failing: set<ConnId>, id: string)
    requires id in cs
    ensures id in AfterBroadcast(cs, msg, failing) <==> !Addressed(cs[id], msg) || cs[id].conn !in failing
    ensures id in AfterBroadcast(cs, msg, failing) ==> AfterBroadcast(cs, msg, failing)[id] == cs[id]
  {
  }

  class Manager {
    /** Connected clients by client ID. */
    var clients: map<string, Client>
    /** Every write and close the manager has performed, in order. */
    ghost var log: seq<Event>

    constructor ()
      ensures clients == map[] && log == []
    {
      clients := map[];
      log := [];
    }

    /**
     * Stores the client under its ID (replacing any entry with that ID) and sends it
     * the confirmation; a failed confirmation leaves the client registered.
     */
    method Register(client: Client, now: int, writeOk: bool)
      modifies this
      ensures clients == old(clients)[client.id := client]
      ensures log == old(log) + [Wrote(client.conn, Confirmation(now), writeOk)]
    {
      clients := clients[client.id := client];
      log := log + [Wrote(client.conn, Confirmation(now), writeOk)];
    }

    /** Removes the client and closes its connection when its ID is registered; otherwise nothing happens. */
    method Unregister(client: Client)
      modifies this
      ensures client.id in old(clients) ==> clients == old(clients) - {client.id} && log == old(log) + [Closed(client.conn)]
      ensures client.id !in old(clients) ==> clients == old(clients) && log == old(log)
    {
      if client.id in clients {
        clients := clients - {client.id};
        log := log + [Closed(client.conn)];
      }
    }

    /**
     * Writes `msg` to every registered client it addresses, each exactly once in
     * some order; a client whose write fails is closed and removed, and delivery
     * to the others continues.  Connections in `failing` are those whose write fails.
     */
    method Broadcast(msg: Message, failing: set<ConnId>) returns (ghost order: seq<string>)
      modifies this
      ensures clients == AfterBroadcast(old(clients), msg, failing)
      ensures forall id :: id in order <==> id in old(clients) && Addressed(old(clients)[id], msg)
      ensures Distinct(order)
      ensures log == old(log) + Deliveries(order, old(clients), msg, failing)
    {
      ghost var cs, log0 := clients, log;
      var pending := clients.Keys;
      order := [];
      SurvivorsBounds(cs, msg, failing);
      while pending != {}
        invariant pending <= cs.Keys
        invariant forall id :: id in order <==> id in cs && id !in pending && Addressed(cs[id], msg)
        invariant Distinct(order)
        invariant clients == Survivors(cs, pending, msg, failing)
        invariant log == log0 + Deliveries(order, cs, msg, failing)
        decreases pending
      {
        var id :| id in pending;
        SurvivorsStep(cs, pending, id, msg, failing);
        pending := pending - {id};
        var c := clients[id];
        if Addressed(c, msg) {
          // the write, followed by a close when it fails
          DeliveriesSnoc(order, id, cs, msg, failing);
          AppendAssoc(log0, Deliveries(order, cs, msg, failing), Delivery(c, msg, failing));
          log := log + Delivery(c, msg, failing);
          if c.conn in failing {
            clients := clients - {id};
          }
          order := order + [id];
        }
      }
    }

    /** Writes `msg` to every client of `userId`; failed writes are only logged, no client is removed. */
    method SendNotificationToUser(userId: string, msg: Message, failing: set<ConnId>) returns (ghost order: seq<string>)
      modifies this`log
      ensures forall id :: id in order <==> id in clients && clients[id].userId == userId
      ensures Distinct(order)
      ensures log == old(log) + Notifications(order, clients, msg, failing)
    {
      var pending := clients.Keys;
      order := [];
      while pending != {}
        invariant pending <= clients.Keys
        invariant forall id :: id in order <==> id in clients && id !in pending && clients[id].userId == userId
        invariant Distinct(order)
        invariant log == old(log) + Notifications(order, clients, msg, failing)
        decreases pending
      {
        var id :| id in pending;
        pending := pending - {id};
        var c := clients[id];
        if c.userId == userId {
          log := log + [Wrote(c.conn, msg, c.conn !in failing)];
          NotificationsSnoc(order, id, clients, msg, failing);
          order := order + [id];
        }
      }
    }
  }

  // ---------------------------------------------------------------------------
  // The per-connection read loop

  /** The fields a chat frame supplies; the rest are overwritten by the server. */
  datatype ChatFields = ChatFields(receiverId: string, content: string)

  /**
   * One frame read from the socket: a non-text frame, text that is not a JSON
   * object, or a JSON object with its "type" field (the empty string when absent
   * or not a string) and, when the object also decodes as a chat message, its fields.
   */
  datatype Frame = NonText | Malformed | Text(kind: string, chat: Option<ChatFields>)

  datatype Action = NoAction | Send(msg: Message) | Answer(msg: Message)

  /**
   * What the server does with one frame.  A "message" is broadcast stamped with a
   * fresh ID, the authenticated user as sender, the current time, unread and type
   * "new_message"; a "ping" is answered with "pong"; anything else is dropped.
   */
  function Dispatch(frame: Frame, userId: string, freshId: string, now: int): (a: Action)
    ensures a.Send? <==> frame.Text? && frame.kind == "message" && frame.chat.Some?
    ensures a.Send? ==> a.msg == Message(freshId, userId, frame.chat.value.receiverId,
                                         frame.chat.value.content, now, false, "new_message")
    ensures a.Answer? <==> frame.Text? && frame.kind == "ping"
    ensures a.Answer? ==> a.msg == Pong(now)
  {
    match frame
    case NonText => NoAction
    case Malformed => NoAction
    case Text(kind, chat) =>
      if kind == "message" then
        if chat.None? then NoAction
        else Send(Message(freshId, userId, chat.value.receiverId, chat.value.content, now, false, "new_message"))
      else if kind == "ping" then Answer(Pong(now))
      else NoAction
  }

  /**
   * The state a connection's read loop builds up: the client table, the writes and
   * closes so far, and whether every broadcast visited exactly the clients it
   * addresses, each once.
   */
  datatype Session = Session(clients: map<string, Client>, events: seq<Event>, ordered: bool)

  /** `order` lists, once each, exactly the clients of `cs` that `msg` addresses. */
  ghost predicate Covers(order: seq<string>, cs: map<string, Client>, msg: Message)
  {
    Distinct(order) && forall id :: id in order <==> id in cs && Addressed(cs[id], msg)
  }

  /**
   * One frame of the read loop on connection `conn` of user `userId`: a chat
   * message is broadcast to the clients in `order`, a ping is answered on `conn`,
   * anything else changes nothing.
   */
  ghost function Step(s: Session, conn: ConnId, userId: string, frame: Frame, id: string, now: int,
                      order: seq<string>, failing: set<ConnId>): Session
  {
    match Dispatch(frame, userId, id, now)
    case NoAction => s
    case Answer(msg) => s.(events := s.events + [Wrote(conn, msg, conn !in failing)])
    case Send(msg) =>
      if Covers(order, s.clients, msg) then
        assert forall i :: 0 <= i < |order| ==> order[i] in s.clients;
        Session(AfterBroadcast(s.clients, msg, failing), s.events + Deliveries(order, s.clients, msg, failing), s.ordered)
      else s.(ordered := false)
  }

  /** The read loop over `frames`, frame i with fresh ID `ids[i]`, clock `times[i]` and broadcast order `orders[i]`. */
  ghost function Served(s: Session, conn: ConnId, userId: string, frames: seq<Frame>, ids: seq<string>,
                        times: seq<int>, orders: seq<seq<string>>, failing: set<ConnId>): Session
    requires |ids| == |frames| && |times| == |frames| && |orders| == |frames|
  {
    if frames == [] then s
    else
      var n := |frames| - 1;
      Step(Served(s, conn, userId, frames[..n], ids[..n], times[..n], orders[..n], failing),
           conn, userId, frames[n], ids[n], times[n], orders[n], failing)
  }

  /** The read loop never adds a client and never changes one it keeps. */
  lemma {:induction false} ServedOnlyEvicts(s: Session, conn: ConnId, userId: string, frames: seq<Frame>, ids: seq<string>,
                                            times: seq<int>, orders: seq<seq<string>>, failing: set<ConnId>)
    requires |ids| == |frames| && |times| == |frames| && |orders| == |frames|
    ensures var r := Served(s, conn, userId, frames, ids, times, orders, failing);
            forall id :: id in r.clients ==> id in s.clients && r.clients[id] == s.clients[id]
    ensures s.events <= Served(s, conn, userId, frames, ids, times, orders, failing).events
  {
    if frames != [] {
      var n := |frames| - 1;
      ServedOnlyEvicts(s, conn, userId, frames[..n], ids[..n], times[..n], orders[..n], failing);
    }
  }

  /** With only pings, the loop answers each with a pong on its own connection and evicts no one. */
  lemma {:induction false} PingsAnswered(s: Session, conn: ConnId, userId: string, frames: seq<Frame>, ids: seq<string>,
                                         times: seq<int>, orders: seq<seq<string>>, failing: set<ConnId>)
    requires |ids| == |frames| && |times| == |frames| && |orders| == |frames|
    requires forall i :: 0 <= i < |frames| ==> frames[i].Text? && frames[i].kind == "ping"
    ensures var r := Served(s, conn, userId, frames, ids, times, orders, failing);
            r.clients == s.clients && r.ordered == s.ordered &&
            |r.events| == |s.events| + |frames| &&
            forall i :: 0 <= i < |frames| ==> r.events[|s.events| + i] == Wrote(conn, Pong(times[i]), conn !in failing)
  {
    if frames != [] {
      var n := |frames| - 1;
      PingsAnswered(s, conn, userId, frames[..n], ids[..n], times[..n], orders[..n], failing);
    }
  }

  /** A step taken from any session adds to its events what the same step taken from an empty log would write. */
  lemma {:induction false} StepAppends(s: Session, conn: ConnId, userId: string, frame: Frame, id: string, now: int,
                                       order: seq<string>, failing: set<ConnId>)
    ensures var r := Step(Session(s.clients, [], true), conn, userId, frame, id, now, order, failing);
            Step(s, conn, userId, frame, id, now, order, failing) ==
              Session(r.clients, s.events + r.events, s.ordered && r.ordered)
  {
  }

  /** One pass of the read loop: what `Step` says, with the broadcast's visiting order returned. */
  method ServeFrame(m: Manager, conn: ConnId, userId: string, frame: Frame, id: string, now: int, failing: set<ConnId>)
    returns (ghost order: seq<string>)
    modifies m
    ensures var r := Step(Session(old(m.clients), [], true), conn, userId, frame, id, now, order, failing);
            r.ordered && m.clients == r.clients && m.log == old(m.log) + r.events
  {
    order := [];
    var a := Dispatch(frame, userId, id, now);
    match a {
      case NoAction =>
      case Send(msg) =>
        order := m.Broadcast(msg, failing);
      case Answer(msg) =>
        m.log := m.log + [Wrote(conn, msg, conn !in failing)];
    }
  }

  /** The read loop over `frames`, as `Served` says, with each frame's broadcast order returned. */
  method ReadLoop(m: Manager, conn: ConnId, userId: string, frames: seq<Frame>, ids: seq<string>, times: seq<int>,
                  failing: set<ConnId>)
    returns (ghost orders: seq<seq<string>>)
    requires |ids| == |frames| && |times| == |frames|
    modifies m
    ensures |orders| == |frames|
    ensures var s := Served(Session(old(m.clients), [], true), conn, userId, frames, ids, times, orders, failing);
            s.ordered && m.clients == s.clients && m.log == old(m.log) + s.events
  {
    ghost var s0 := Session(m.clients, [], true);
    orders := [];
    var i := 0;
    while i < |frames|
      invariant 0 <= i <= |frames| && |orders| == i
      invariant var s := Served(s0, conn, userId, frames[..i], ids[..i], times[..i], orders, failing);
                s.ordered && m.clients == s.clients && m.log == old(m.log) + s.events
    {
      ghost var s := Served(s0, conn, userId, frames[..i], ids[..i], times[..i], orders, failing);
      var order := ServeFrame(m, conn, userId, frames[i], ids[i], times[i], failing);
      StepAppends(s, conn, userId, frames[i], ids[i], times[i], order, failing);
      assert frames[..i + 1][..i] == frames[..i] && ids[..i + 1][..i] == ids[..i];
      assert times[..i + 1][..i] == times[..i] && (orders + [order])[..i] == orders;
      orders := orders + [order];
      i := i + 1;
    }
    assert frames[..i] == frames && ids[..i] == ids && times[..i] == times;
  }

  /**
   * Serves one connection whose "userID" local is `local`.  Without a string user ID
   * the connection is closed and nothing is registered.  Otherwise the client is
   * registered and sent the confirmation, each frame is dispatched in turn (the
   * sequence ends where the read fails), and the client is unregistered at the end
   * if no failed broadcast write has already removed it.  `ids[i]` and `times[i]`
   * are the fresh message ID and the clock for frame i, and `orders[i]` the order in
   * which its broadcast, if any, visited the clients; writes to connections in
   * `failing` fail.
   */
  method WebSocketHandler(m: Manager, local: AuthMiddleware.LocalValue, conn: ConnId, clientId: string,
                          now: int, frames: seq<Frame>, ids: seq<string>, times: seq<int>,
                          failing: set<ConnId>)
    returns (accepted: bool, ghost orders: seq<seq<string>>)
    requires |ids| == |frames| && |times| == |frames|
    modifies m
    ensures accepted <==> local.Str?
    ensures !accepted ==> m.clients == old(m.clients) && m.log == old(m.log) + [Closed(conn)]
    ensures accepted ==>
              |orders| == |frames| &&
              var s := Served(Session(old(m.clients)[clientId := Client(clientId, conn, local.s)], [], true),
                              conn, local.s, frames, ids, times, orders, failing);
              s.ordered && m.clients == s.clients - {clientId} &&
              m.log == old(m.log) + [Wrote(conn, Confirmation(now), conn !in failing)] + s.events +
                       (if clientId in s.clients then [Closed(conn)] else [])
    ensures accepted ==> clientId !in m.clients
    ensures forall id :: id in m.clients ==> id in old(m.clients) && m.clients[id] == old(m.clients)[id]
  {
    orders := [];
    if !local.Str? {
      m.log := m.log + [Closed(conn)];
      return false, orders;
    }
    var client := Client(clientId, conn, local.s);
    m.Register(client, now, conn !in failing);
    ghost var s0 := Session(m.clients, [], true);
    orders := ReadLoop(m, conn, local.s, frames, ids, times, failing);
    ServedOnlyEvicts(s0, conn, local.s, frames, ids, times, orders, failing);
    m.Unregister(client);
    accepted := true;
  }
}
