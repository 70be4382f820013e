/** The document store the controllers share, with the invariants every handler keeps. */
module Store {
  import opened Results
  import opened Models
  import opened Seqs

  ghost predicate UniqueUserIds(users: seq<User>) {
    forall i, j :: 0 <= i < j < |users| ==> users[i].id != users[j].id
  }

  /** A is among B's followers exactly when B is among A's followings. */
  ghost predicate FollowSymmetric(users: seq<User>) {
    forall i, j :: 0 <= i < |users| && 0 <= j < |users| ==>
      (users[i].id in users[j].followers <==> users[j].id in users[i].following)
  }

  /** The set of participants of a conversation. */
  function Members(c: Conversation): set<Id> {
    set x | x in c.participants
  }

  /** Every conversation has two participant entries and no two have the same participants. */
  ghost predicate OneConversationPerPair(cs: seq<Conversation>) {
    && (forall i :: 0 <= i < |cs| ==> |cs[i].participants| == 2)
    && (forall i, j :: 0 <= i < j < |cs| ==> Members(cs[i]) != Members(cs[j]))
  }

  ghost predicate UsersBelow(users: seq<User>, nextId: Id) {
    forall i :: 0 <= i < |users| ==> users[i].id < nextId
  }

  /** An id above every account's id, where the counter of fresh ids starts. */
  function FirstFreeId(users: seq<User>): (r: Id)
    ensures UsersBelow(users, r)
  {
    if users == [] then 0
    else
      var rest := FirstFreeId(users[1..]);
      var r := if users[0].id < rest then rest else users[0].id + 1;
      assert forall i :: 1 <= i < |users| ==> users[i] == users[1..][i - 1];
      r
  }

  ghost predicate PostsStamped(ps: seq<Post>, nextId: Id, clock: Time) {
    forall i :: 0 <= i < |ps| ==> ps[i].id < nextId && ps[i].createdAt <= ps[i].updatedAt < clock
  }

  ghost predicate ConversationsStamped(cs: seq<Conversation>, nextId: Id, clock: Time) {
    forall i :: 0 <= i < |cs| ==> cs[i].id < nextId && cs[i].createdAt <= cs[i].updatedAt < clock
  }

  ghost predicate MessagesStamped(ms: seq<Message>, nextId: Id, clock: Time) {
    forall i :: 0 <= i < |ms| ==> ms[i].id < nextId && ms[i].createdAt < clock
  }

  ghost predicate NotificationsStamped(ns: seq<Notification>, nextId: Id, clock: Time) {
    forall i :: 0 <= i < |ns| ==> ns[i].id < nextId && ns[i].createdAt <= ns[i].updatedAt < clock
  }

  class Database {
    var users: seq<User>
    var posts: seq<Post>
    var conversations: seq<Conversation>
    var messages: seq<Message>
    var notifications: seq<Notification>
    /** The next reading of the clock; every write stamps with it and advances it. */
    var clock: Time
    /** The next fresh document id. */
    var nextId: Id

    ghost predicate Valid()
      reads this
    {
      && UniqueUserIds(users) && FollowSymmetric(users) && UsersBelow(users, nextId)
      && PostsStamped(posts, nextId, clock)
      && OneConversationPerPair(conversations)
      && ConversationsStamped(conversations, nextId, clock)
      && MessagesStamped(messages, nextId, clock)
      && NotificationsStamped(notifications, nextId, clock)
    }

    /** A store holding the registered accounts `accounts` and nothing else. */
    constructor (accounts: seq<User>)
      requires UniqueUserIds(accounts) && FollowSymmetric(accounts)
      ensures Valid()
      ensures users == accounts && posts == [] && conversations == [] && messages == [] && notifications == []
    {
      users := accounts;
      posts, conversations, messages, notifications := [], [], [], [];
      clock, nextId := 0, FirstFreeId(accounts);
    }

    /** Reads the clock and advances it. */
    method Tick() returns (now: Time)
      requires Valid()
      modifies this`clock
      ensures Valid()
      ensures now == old(clock) && clock == now + 1
    {
      now := clock;
      clock := clock + 1;
    }

    /** Allocates a fresh document id. */
    method NewId() returns (id: Id)
      requires Valid()
      modifies this`nextId
      ensures Valid()
      ensures id == old(nextId) && nextId == id + 1
    {
      id := nextId;
      nextId := nextId + 1;
    }

    /** `Notification.create`: appends a fresh unread notification. */
    method CreateNotification(recipient: Id, sender: Id, kind: NotificationType) returns (n: Notification)
      requires Valid()
      modifies this`notifications, this`clock, this`nextId
      ensures Valid()
      ensures n == NewNotification(old(nextId), recipient, sender, kind, old(clock))
      ensures notifications == old(notifications) + [n]
      ensures nextId == old(nextId) + 1 && clock == old(clock) + 1
    {
      var id := NewId();
      var now := Tick();
      n := NewNotification(id, recipient, sender, kind, now);
      notifications := notifications + [n];
    }

    /** `Message.create`: appends a fresh message. */
    method CreateMessage(conversation: Id, sender: Id, text: string) returns (m: Message)
      requires Valid()
      modifies this`messages, this`clock, this`nextId
      ensures Valid()
      ensures m == Message(old(nextId), conversation, sender, text, old(clock))
      ensures messages == old(messages) + [m]
      ensures nextId == old(nextId) + 1 && clock == old(clock) + 1
    {
      var id := NewId();
      var now := Tick();
      m := Message(id, conversation, sender, text, now);
      messages := messages + [m];
    }
  }

  /** `User.findById(id)`. */
  function UserIndex(users: seq<User>, id: Id): (r: Option<nat>)
    ensures r.Some? ==> r.value < |users| && users[r.value].id == id
    ensures r.None? <==> forall j :: 0 <= j < |users| ==> users[j].id != id
  {
    FirstIndex(users, (u: User) => u.id == id)
  }

  /** `User.findOne({ username })`. */
  function UserByName(users: seq<User>, username: string): (r: Option<nat>)
    ensures r.Some? ==> r.value < |users| && users[r.value].username == username
    ensures r.None? <==> forall j :: 0 <= j < |users| ==> users[j].username != username
  {
    FirstIndex(users, (u: User) => u.username == username)
  }

  /** `Post.findById(id)`. */
  function PostIndex(posts: seq<Post>, id: Id): (r: Option<nat>)
    ensures r.Some? ==> r.value < |posts| && posts[r.value].id == id
    ensures r.None? <==> forall j :: 0 <= j < |posts| ==> posts[j].id != id
  {
    FirstIndex(posts, (p: Post) => p.id == id)
  }

  /** `Conversation.findOne({ participants: { $all: [a, b] } })`: the first conversation listing both ids. */
  function ConversationWith(cs: seq<Conversation>, a: Id, b: Id): (r: Option<nat>)
    ensures r.Some? ==> r.value < |cs| && a in cs[r.value].participants && b in cs[r.value].participants
    ensures r.Some? ==> forall j :: 0 <= j < r.value ==> !(a in cs[j].participants && b in cs[j].participants)
    ensures r.None? <==> forall j :: 0 <= j < |cs| ==> !(a in cs[j].participants && b in cs[j].participants)
  {
    FirstIndex(cs, (c: Conversation) => a in c.participants && b in c.participants)
  }

  /** Two distinct users share at most one conversation. */
  lemma AtMostOneConversationPerPair(cs: seq<Conversation>, i: nat, j: nat, a: Id, b: Id)
    requires OneConversationPerPair(cs)
    requires i < |cs| && j < |cs| && a != b
    requires a in cs[i].participants && b in cs[i].participants
    requires a in cs[j].participants && b in cs[j].participants
    ensures i == j
  {
    PairMembers(cs[i], a, b);
    PairMembers(cs[j], a, b);
  }

  lemma PairMembers(c: Conversation, a: Id, b: Id)
    requires |c.participants| == 2 && a != b
    requires a in c.participants && b in c.participants
    ensures Members(c) == {a, b}
  {
    var p := c.participants;
    assert p == [p[0], p[1]];
    forall x | x in Members(c) ensures x == a || x == b {
      assert x == p[0] || x == p[1];
    }
  }
}
