/**
 * The wiring of the chat server's entry point (main.go).
 *
 * A user's messages travel on the topic "/to/user/<id>". The registry's "user
 * connected" callback subscribes the notification bus to that topic and "user
 * disconnected" unsubscribes it; the bus's message handler cuts the prefix off an
 * arriving topic and sends the message to that user as a text frame. The bus is
 * represented by the requests the callbacks make of it. The registry is the
 * connection service's `WSServer` (services/connection-service/websocket/server.go),
 * whose callback API this wiring uses.
 */
module ChatWiring {
  import opened Wrappers
  import opened GoStrings
  import opened Utf8
  import opened ServiceConnection
  import opened ConnectionServer

  const UserTopicPrefix: string := "/to/user/"

  /** `fmt.Sprintf("/to/user/%s", id)`: the topic a user's messages are published on. */
  function UserTopic(id: string): string
  {
    UserTopicPrefix + id
  }

  /**
   * `strings.CutPrefix(topic, "/to/user/")` with `found` dropped: the id of a user
   * topic, and an unprefixed topic passed through unchanged.
   */
  function UserIdOf(topic: string): (id: string)
    ensures HasPrefix(topic, UserTopicPrefix) ==> UserTopic(id) == topic
    ensures !HasPrefix(topic, UserTopicPrefix) ==> id == topic
  {
    CutPrefix(topic, UserTopicPrefix).0
  }

  /** Stripping the formatted topic of a user gives the user back. */
  lemma UserTopicRoundTrip(id: string)
    ensures UserIdOf(UserTopic(id)) == id
  {
    CutPrefixOfConcat(UserTopicPrefix, id);
  }

  /** Different users have different topics. */
  lemma UserTopicInjective(a: string, b: string)
    ensures UserTopic(a) == UserTopic(b) <==> a == b
  {
    UserTopicRoundTrip(a);
    UserTopicRoundTrip(b);
  }

  /** A request the callbacks make of the notification bus. */
  datatype BusRequest = Subscribe(topic: string) | Unsubscribe(topic: string)

  /** The request one callback invocation makes: subscribe on connect, unsubscribe on disconnect, on the user's topic. */
  function Request(n: Notice): (r: BusRequest)
    ensures r.Subscribe? <==> n.UserConnected?
    ensures UserIdOf(r.topic) == n.id
  {
    UserTopicRoundTrip(n.id);
    match n
    case UserConnected(id) => Subscribe(UserTopic(id))
    case UserDisconnected(id) => Unsubscribe(UserTopic(id))
  }

  /** The requests a history of callback invocations makes, one each, in order. */
  function Requests(fired: seq<Notice>): (r: seq<BusRequest>)
    ensures |r| == |fired|
    ensures forall i :: 0 <= i < |r| ==> r[i] == Request(fired[i])
  {
    if fired == [] then [] else Requests(fired[..|fired| - 1]) + [Request(fired[|fired| - 1])]
  }

  /** The topics the bus is subscribed to after `reqs`, starting from none. */
  ghost function SubscribedBy(reqs: seq<BusRequest>): set<string>
  {
    if reqs == [] then {}
    else
      var rest := SubscribedBy(reqs[..|reqs| - 1]);
      match reqs[|reqs| - 1]
      case Subscribe(t) => rest + {t}
      case Unsubscribe(t) => rest - {t}
  }

  /** The topics of the users in `ids`. */
  ghost function UserTopics(ids: set<string>): set<string>
  {
    set id | id in ids :: UserTopic(id)
  }

  /** Connecting a user adds exactly that user's topic. */
  lemma UserTopicsAdd(ids: set<string>, id: string)
    ensures UserTopics(ids + {id}) == UserTopics(ids) + {UserTopic(id)}
  {
    assert UserTopic(id) in UserTopics(ids + {id});
  }

  /** Disconnecting a user removes exactly that user's topic, and no other user's. */
  lemma UserTopicsRemove(ids: set<string>, id: string)
    ensures UserTopics(ids - {id}) == UserTopics(ids) - {UserTopic(id)}
  {
    forall t | t in UserTopics(ids) - {UserTopic(id)} ensures t in UserTopics(ids - {id}) {
      var x :| x in ids && UserTopic(x) == t;
      UserTopicInjective(x, id);
    }
    forall t | t in UserTopics(ids - {id}) ensures t != UserTopic(id) {
      var x :| x in ids - {id} && UserTopic(x) == t;
      UserTopicInjective(x, id);
    }
  }

  /** The bus is subscribed to exactly the topics of the users in `users`. */
  ghost predicate InStep<V>(fired: seq<Notice>, users: map<string, V>)
  {
    SubscribedBy(Requests(fired)) == UserTopics(users.Keys)
  }

  /**
   * A registration keeps the bus in step: a user's first connection fires a connect,
   * which subscribes that user's topic; a further connection fires nothing.
   */
  lemma ConnectKeepsStep<V>(fired: seq<Notice>, users: map<string, V>, id: string, v: V)
    requires InStep(fired, users)
    ensures var fired' := fired + (if id !in users then [UserConnected(id)] else []);
      && InStep(fired', users[id := v])
      && Requests(fired') == Requests(fired) + (if id !in users then [Subscribe(UserTopic(id))] else [])
  {
    if id !in users {
      assert (fired + [UserConnected(id)])[..|fired|] == fired;
      UserTopicsAdd(users.Keys, id);
      assert users[id := v].Keys == users.Keys + {id};
    } else {
      assert fired + [] == fired;
      assert users[id := v].Keys == users.Keys;
    }
  }

  /**
   * An eviction keeps the bus in step: the disconnect it fires unsubscribes the
   * evicted user's topic and no other user's.
   */
  lemma DisconnectKeepsStep<V>(fired: seq<Notice>, users: map<string, V>, id: string)
    requires InStep(fired, users)
    ensures InStep(fired + [UserDisconnected(id)], users - {id})
    ensures Requests(fired + [UserDisconnected(id)]) == Requests(fired) + [Unsubscribe(UserTopic(id))]
  {
    assert (fired + [UserDisconnected(id)])[..|fired|] == fired;
    UserTopicsRemove(users.Keys, id);
    assert (users - {id}).Keys == users.Keys - {id};
  }

  /**
   * The handler `SetUpNotificationHandlers` installs on the bus: the message goes,
   * as a text frame, to the user named by the topic with its prefix cut off.
   */
  method DeliverNotification<C(==)>(wss: WSServer<C>, topic: string, msg: seq<byte>, done: set<C>)
    returns (err: Option<ServerError>, enqueued: seq<(C, WsMessage)>)
    requires wss.Valid()
    ensures UserIdOf(topic) !in wss.users ==> err == Some(NoConnections(NoConnectionsMsg(UserIdOf(topic)))) && enqueued == []
    ensures UserIdOf(topic) in wss.users ==>
      err == None && enqueued == Deliveries(wss.users[UserIdOf(topic)], done, WsMessage(TextMessage, msg))
    ensures forall id :: topic == UserTopic(id) && id in wss.users ==>
      err == None && enqueued == Deliveries(wss.users[id], done, WsMessage(TextMessage, msg))
  {
    err, enqueued := wss.SendMessage(UserIdOf(topic), msg, TextMessage, done);
    forall id | topic == UserTopic(id) {
      UserTopicRoundTrip(id);
    }
  }

  /**
   * What `main` builds: a registry with both callbacks of `SetUpWsMessageHandlers`
   * installed. The bus requests are those of the callback invocations the registry
   * records, and they keep the bus subscribed to exactly the topics of the users
   * that are connected.
   */
  class ChatServer<C(==)> {
    const wss: WSServer<C>

    ghost function BusRequests(): seq<BusRequest>
      reads this, wss
    {
      Requests(wss.fired)
    }

    ghost predicate Valid()
      reads this, wss, wss.connections, wss.connections.data.Values
    {
      && wss.Valid()
      && wss.onUserConnected && wss.onUserDisconnected
      && InStep(wss.fired, wss.users)
    }

    /** `NewWSServer()` followed by `SetUpWsMessageHandlers`: no users and no bus requests yet. */
    constructor ()
      ensures Valid() && fresh(wss) && fresh(wss.connections)
      ensures wss.users == map[] && BusRequests() == []
    {
      wss := new WSServer();
      new;
      wss.SetOnUserConnected(true);
      wss.SetOnUserDisconnected(true);
    }

    /**
     * A connection of `id` is registered: the bus is asked to subscribe to the
     * user's topic exactly when this is the user's first connection.
     */
    method UserConnects(id: string, conn: C)
      requires Valid()
      modifies wss, wss.connections, wss.connections.data.Values
      ensures Valid()
      ensures wss.users == old(wss.users)[id := ListOf(old(wss.users), id) + [conn]]
      ensures BusRequests() == old(BusRequests()) + (if id !in old(wss.users) then [Subscribe(UserTopic(id))] else [])
    {
      ConnectKeepsStep(wss.fired, wss.users, id, ListOf(wss.users, id) + [conn]);
      var _ := wss.AddConnection(id, conn);
    }

    /**
     * A connection of `id` is unregistered: the bus is asked to unsubscribe from the
     * user's topic exactly when this removal evicts the user.
     */
    method UserDisconnects(id: string, conn: C) returns (err: Option<ServerError>)
      requires Valid()
      modifies wss, wss.connections, wss.connections.data.Values
      ensures Valid()
      ensures wss.users.Keys <= old(wss.users.Keys)
      ensures id !in old(wss.users) ==> err == Some(NoConnections(NoConnectionsMsg(id))) && wss.users == old(wss.users)
      ensures BusRequests() == old(BusRequests()) +
        (if id in old(wss.users) && id !in wss.users then [Unsubscribe(UserTopic(id))] else [])
    {
      ghost var before := wss.fired;
      ghost var users := wss.users;
      err := wss.RemoveConnection(id, conn);
      if id in users && id !in wss.users {
        DisconnectKeepsStep(before, users, id);
      } else {
        assert wss.fired == before && wss.users.Keys == users.Keys;
      }
    }

    /**
     * The bus handler on an arriving message: a message on the topic of a user the
     * bus is subscribed for reaches every live connection of that user, and only
     * theirs.
     */
    method Notify(topic: string, msg: seq<byte>, done: set<C>)
      returns (err: Option<ServerError>, enqueued: seq<(C, WsMessage)>)
      requires Valid()
      ensures topic in SubscribedBy(BusRequests()) ==>
        && UserIdOf(topic) in wss.users && topic == UserTopic(UserIdOf(topic))
        && err == None && enqueued == Deliveries(wss.users[UserIdOf(topic)], done, WsMessage(TextMessage, msg))
    {
      err, enqueued := DeliverNotification(wss, topic, msg, done);
      if topic in SubscribedBy(BusRequests()) {
        var id :| id in wss.users.Keys && UserTopic(id) == topic;
        UserTopicRoundTrip(id);
      }
    }
  }
}
