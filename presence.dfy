/**
 * The real-time layer of the backend: the registry `onlineUsers` from user id to
 * socket id, the handlers of the `register`, `send-message`, `typing` and
 * `disconnect` events, and the two delivery helpers the controllers may call.
 * Every `io.emit` / `io.to(id).emit` is recorded as an event in an outbox.
 */
module Presence {

  type UserId = string
  type SocketId = string

  /** `io.emit` reaches every connection; `io.to(id).emit` only the connection `id`. */
  datatype Target = Everyone | Socket(id: SocketId)

  /** The event names the server emits. */
  datatype Kind = UserOnline | UserOffline | ReceiveMessage | Typing | NewNotification

  datatype Event = Event(target: Target, kind: Kind, payload: string)

  /** JavaScript truthiness of an id; a missing id (`undefined`, `null`) is written "". */
  predicate Truthy(s: string) {
    s != ""
  }

  /** No two users share a socket. */
  ghost predicate Injective(m: map<UserId, SocketId>) {
    forall u, v :: u in m && v in m && u != v ==> m[u] != m[v]
  }

  /** `onlineUsers.get(u)`, with `undefined` written "". */
  function Lookup(m: map<UserId, SocketId>, u: UserId): (s: SocketId)
    ensures Truthy(s) ==> u in m && m[u] == s
    ensures u in m ==> s == m[u]
  {
    if u in m then m[u] else ""
  }

  /**
   * The registry after `register(u)` on socket `s`: the cleanup loop drops every
   * entry keyed by `u` or bound to `s`, then `u` is bound to `s`.
   */
  function Registered(m: map<UserId, SocketId>, u: UserId, s: SocketId): (r: map<UserId, SocketId>)
    ensures u in r && r[u] == s
    ensures forall k :: k in r && k != u ==> k in m && r[k] == m[k] && m[k] != s
    ensures forall k :: k in m && k != u && m[k] != s ==> k in r
  {
    Cleaned(m, u, s)[u := s]
  }

  /** The entries the cleanup loop of `register` keeps. */
  function Cleaned(m: map<UserId, SocketId>, u: UserId, s: SocketId): map<UserId, SocketId>
  {
    map k | k in m && k != u && m[k] != s :: m[k]
  }

  /** The events a directed emit produces: one to the receiver's socket when it is registered, none otherwise. */
  function Deliver(m: map<UserId, SocketId>, receiver: UserId, kind: Kind, payload: string): (r: seq<Event>)
    ensures |r| <= 1
    ensures |r| == 1 <==> receiver in m && Truthy(m[receiver])
    ensures |r| == 1 ==> r[0] == Event(Socket(m[receiver]), kind, payload)
  {
    var socket := Lookup(m, receiver);
    if Truthy(socket) then [Event(Socket(socket), kind, payload)] else []
  }

  /** Registering keeps the registry injective. */
  lemma RegisteredInjective(m: map<UserId, SocketId>, u: UserId, s: SocketId)
    requires Injective(m)
    ensures Injective(Registered(m, u, s))
  {
  }

  /** Registering the same pair again changes nothing. */
  lemma RegisteredIdempotent(m: map<UserId, SocketId>, u: UserId, s: SocketId)
    ensures Registered(Registered(m, u, s), u, s) == Registered(m, u, s)
  {
    var once := Registered(m, u, s);
    var twice := Registered(once, u, s);
    assert twice.Keys == once.Keys;
  }

  /** A second tab registering the same user evicts the first one's socket. */
  lemma SecondTabWins(m: map<UserId, SocketId>, u: UserId, first: SocketId, second: SocketId)
    requires Truthy(second) && first != second
    ensures var r := Registered(Registered(m, u, first), u, second);
      Deliver(r, u, ReceiveMessage, "") == [Event(Socket(second), ReceiveMessage, "")]
      && first !in r.Values
  {
  }

  class Gateway {
    /** `onlineUsers`. */
    var online: map<UserId, SocketId>
    /** Everything emitted so far, oldest first. */
    var outbox: seq<Event>
    /** Whether `initSocket` has created the server `io`. */
    var serverUp: bool

    ghost predicate Valid()
      reads this
    {
      Injective(online) && "" !in online
    }

    /** The module state before `initSocket`: no server and an empty registry. */
    constructor ()
      ensures Valid()
      ensures online == map[] && outbox == [] && !serverUp
    {
      online := map[];
      outbox := [];
      serverUp := false;
    }

    /** `initSocket`: creates the server; the registry is module state and survives. */
    method Init()
      modifies this`serverUp
      ensures serverUp
    {
      serverUp := true;
    }

    /** The `register` handler, run on socket `socketId`. */
    method Register(userId: UserId, socketId: SocketId)
      requires Valid() && serverUp
      modifies this`online, this`outbox
      ensures Valid()
      ensures !Truthy(userId) ==> online == old(online) && outbox == old(outbox)
      ensures Truthy(userId) ==> online == Registered(old(online), userId, socketId)
      ensures Truthy(userId) ==> outbox == old(outbox) + [Event(Everyone, UserOnline, userId)]
      ensures Truthy(userId) ==> userId in online && online[userId] == socketId
      ensures Truthy(userId) ==> forall k :: k in online && k != userId ==> online[k] != socketId
      ensures forall k :: k in old(online) && k != userId && old(online)[k] != socketId ==>
                k in online && online[k] == old(online)[k]
    {
      if !Truthy(userId) {
        return;
      }
      // Drop every entry keyed by this user or bound to this socket.
      var keys := online.Keys;
      while keys != {}
        invariant keys <= old(online).Keys
        invariant forall k :: k in online <==>
                    k in old(online) && (k in keys || (k != userId && old(online)[k] != socketId))
        invariant forall k :: k in online ==> online[k] == old(online)[k]
        invariant outbox == old(outbox)
        decreases keys
      {
        var key :| key in keys;
        if key == userId || online[key] == socketId {
          online := online - {key};
        }
        keys := keys - {key};
      }
      ghost var cleaned := Cleaned(old(online), userId, socketId);
      assert online.Keys == cleaned.Keys;
      assert online == cleaned;
      online := online[userId := socketId];
      outbox := outbox + [Event(Everyone, UserOnline, userId)];
    }

    /** The `disconnect` handler of socket `socketId`. */
    method Disconnect(socketId: SocketId)
      requires Valid() && serverUp
      modifies this`online, this`outbox
      ensures Valid()
      ensures socketId !in old(online).Values ==> online == old(online) && outbox == old(outbox)
      ensures forall u :: u in old(online) && old(online)[u] == socketId ==>
                online == old(online) - {u} && outbox == old(outbox) + [Event(Everyone, UserOffline, u)]
    {
      var disconnectedUser: UserId := "";
      var keys := online.Keys;
      while keys != {}
        invariant keys <= online.Keys
        invariant online == old(online) && outbox == old(outbox) && disconnectedUser == ""
        invariant forall k :: k in online && k !in keys ==> online[k] != socketId
        decreases keys
      {
        var key :| key in keys;
        if online[key] == socketId {
          disconnectedUser := key;
          online := online - {key};
          break;
        }
        keys := keys - {key};
      }
      if Truthy(disconnectedUser) {
        outbox := outbox + [Event(Everyone, UserOffline, disconnectedUser)];
      }
    }

    /** The `send-message` handler: relays `message` to the receiver's socket. */
    method SendMessage(receiverId: UserId, message: string)
      requires Valid() && serverUp
      modifies this`outbox
      ensures Valid()
      ensures outbox == old(outbox) + Deliver(online, receiverId, ReceiveMessage, message)
    {
      var receiverSocket := Lookup(online, receiverId);
      if Truthy(receiverSocket) {
        outbox := outbox + [Event(Socket(receiverSocket), ReceiveMessage, message)];
      }
    }

    /** The `typing` handler: tells the receiver that `senderId` is typing. */
    method Typing(receiverId: UserId, senderId: UserId)
      requires Valid() && serverUp
      modifies this`outbox
      ensures Valid()
      ensures outbox == old(outbox) + Deliver(online, receiverId, Kind.Typing, senderId)
    {
      var receiverSocket := Lookup(online, receiverId);
      if Truthy(receiverSocket) {
        outbox := outbox + [Event(Socket(receiverSocket), Kind.Typing, senderId)];
      }
    }

    /** `sendNotification`: callable before the server exists, when it emits nothing. */
    method SendNotification(userId: UserId, notification: string)
      requires Valid()
      modifies this`outbox
      ensures Valid()
      ensures !serverUp || !Truthy(userId) ==> outbox == old(outbox)
      ensures serverUp ==> outbox == old(outbox) + Deliver(online, userId, NewNotification, notification)
    {
      if !serverUp || !Truthy(userId) {
        return;
      }
      var socketId := Lookup(online, userId);
      if Truthy(socketId) {
        outbox := outbox + [Event(Socket(socketId), NewNotification, notification)];
      }
    }

    /** `sendMessageToUser`: like `sendNotification`, with a `receive-message` event. */
    method SendMessageToUser(receiverId: UserId, message: string)
      requires Valid()
      modifies this`outbox
      ensures Valid()
      ensures !serverUp || !Truthy(receiverId) ==> outbox == old(outbox)
      ensures serverUp ==> outbox == old(outbox) + Deliver(online, receiverId, ReceiveMessage, message)
    {
      if !serverUp || !Truthy(receiverId) {
        return;
      }
      var socketId := Lookup(online, receiverId);
      if Truthy(socketId) {
        outbox := outbox + [Event(Socket(socketId), ReceiveMessage, message)];
      }
    }
  }
}
