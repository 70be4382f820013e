/** messageController.js: listing conversations and messages, and sending a message. */
module Messages {
  import opened Results
  import opened Models
  import opened Seqs
  import opened Store

  /** `getConversations`: the caller's conversations, most recently updated first. */
  function ConversationsOf(cs: seq<Conversation>, caller: Id): (r: seq<Conversation>)
    ensures forall c :: multiset(r)[c] == if caller in c.participants then multiset(cs)[c] else 0
    ensures forall i, j :: 0 <= i < j < |r| ==> r[i].updatedAt >= r[j].updatedAt
  {
    var mine := Filter(cs, (c: Conversation) => caller in c.participants);
    SortBy(mine, (c: Conversation) => c.updatedAt, true)
  }

  /** The conversation with the latest activity heads each participant's list. */
  lemma LatestConversationFirst(cs: seq<Conversation>, caller: Id, k: nat)
    requires k < |cs| && caller in cs[k].participants
    requires forall j :: 0 <= j < |cs| && j != k ==> cs[j].updatedAt < cs[k].updatedAt
    ensures ConversationsOf(cs, caller) != [] && ConversationsOf(cs, caller)[0] == cs[k]
  {
    var mine := Filter(cs, (c: Conversation) => caller in c.participants);
    assert cs[k] in multiset(cs);
    assert cs[k] in multiset(mine);
    forall y | y in mine && y != cs[k] ensures y.updatedAt < cs[k].updatedAt {
      assert y in multiset(mine);
      assert y in cs;
    }
    SortedHead(mine, cs[k], (c: Conversation) => c.updatedAt);
  }

  /** A self-addressed send looks up any conversation the sender takes part in. */
  lemma SelfSendFindsAnyOwnConversation(cs: seq<Conversation>, a: Id, k: nat)
    requires k < |cs| && a in cs[k].participants
    ensures ConversationWith(cs, a, a).Some? && ConversationWith(cs, a, a).value <= k
  {
  }

  /** `getMessages`: the messages of conversation `conversation`, oldest first. */
  function MessagesOf(ms: seq<Message>, conversation: Id): (r: seq<Message>)
    ensures forall m :: multiset(r)[m] == if m.conversation == conversation then multiset(ms)[m] else 0
    ensures forall i, j :: 0 <= i < j < |r| ==> r[i].createdAt <= r[j].createdAt
  {
    var these := Filter(ms, (m: Message) => m.conversation == conversation);
    SortBy(these, (m: Message) => m.createdAt, false)
  }

  /**
   * `sendMessage` from the caller: validate, find or create the conversation,
   * append the message, record it as the conversation's last message, and notify
   * the receiver unless the caller writes to themself. `None` is a missing `receiverId`.
   */
  method SendMessage(db: Database, caller: Id, receiverId: Option<Id>, text: string) returns (r: Result<Message>)
    requires db.Valid()
    modifies db`conversations, db`messages, db`notifications, db`clock, db`nextId
    ensures db.Valid()
    ensures receiverId.None? || text == "" ==>
              && r == Err(BadRequest)
              && db.conversations == old(db.conversations)
              && db.messages == old(db.messages)
              && db.notifications == old(db.notifications)
              && db.clock == old(db.clock) && db.nextId == old(db.nextId)
    ensures receiverId.Some? && text != "" ==>
              var receiver := receiverId.value;
              var found := ConversationWith(old(db.conversations), caller, receiver);
              var k := if found.Some? then found.value else |old(db.conversations)|;
              && r.Ok?
              && |db.conversations| == |old(db.conversations)| + (if found.Some? then 0 else 1)
              && k < |db.conversations|
              && (forall j :: 0 <= j < |old(db.conversations)| && j != k ==> db.conversations[j] == old(db.conversations)[j])
              && (found.Some? ==>
                    db.conversations[k] == old(db.conversations)[k].(lastMessage := db.conversations[k].lastMessage,
                                                                    updatedAt := db.conversations[k].updatedAt))
              && (found.None? ==>
                    db.conversations[k].participants == [caller, receiver]
                    && forall j :: 0 <= j < |old(db.conversations)| ==> old(db.conversations)[j].id != db.conversations[k].id)
              && db.messages == old(db.messages) + [r.value]
              && r.value == Message(r.value.id, db.conversations[k].id, caller, text, r.value.createdAt)
              && (forall j :: 0 <= j < |old(db.messages)| ==> old(db.messages)[j].id != r.value.id)
              && db.conversations[k].lastMessage == Some(r.value.id)
              && (forall j :: 0 <= j < |db.conversations| && j != k ==>
                    db.conversations[j].updatedAt < db.conversations[k].updatedAt)
              && |db.notifications| == |old(db.notifications)| + (if receiver != caller then 1 else 0)
              && db.notifications[..|old(db.notifications)|] == old(db.notifications)
              && (receiver != caller ==>
                    var n := db.notifications[|old(db.notifications)|];
                    n.recipient == receiver && n.sender == caller && n.kind == MessageType && !n.read && n.post.None?)
  {
    if receiverId.None? || text == "" {
      return Err(BadRequest);
    }
    var receiver := receiverId.value;
    var k := FindOrCreateConversation(db, caller, receiver);
    var message := db.CreateMessage(db.conversations[k].id, caller, text);
    RecordLastMessage(db, k, message.id);
    // A message to oneself notifies nobody.
    if receiver != caller {
      var _ := db.CreateNotification(receiver, caller, MessageType);
    }
    r := Ok(message);
  }

  /** The find-or-create step of `sendMessage`: the index of the conversation the message goes to. */
  method FindOrCreateConversation(db: Database, sender: Id, receiver: Id) returns (k: nat)
    requires db.Valid()
    modifies db`conversations, db`clock, db`nextId
    ensures db.Valid()
    ensures k < |db.conversations|
    ensures ConversationWith(old(db.conversations), sender, receiver).Some? ==>
              k == ConversationWith(old(db.conversations), sender, receiver).value
              && db.conversations == old(db.conversations)
    ensures ConversationWith(old(db.conversations), sender, receiver).None? ==>
              k == |old(db.conversations)|
              && db.conversations == old(db.conversations) + [Conversation(old(db.nextId), [sender, receiver], None, old(db.clock), old(db.clock))]
              && forall j :: 0 <= j < k ==> db.conversations[j].id < db.conversations[k].id
  {
    var found := ConversationWith(db.conversations, sender, receiver);
    if found.Some? {
      return found.value;
    }
    var id := db.NewId();
    var now := db.Tick();
    var created := Conversation(id, [sender, receiver], None, now, now);
    NewConversationKeepsPairs(db.conversations, created, sender, receiver);
    k := |db.conversations|;
    db.conversations := db.conversations + [created];
  }

  /** `conversation.lastMessage = id; conversation.save()`. */
  method RecordLastMessage(db: Database, k: nat, id: Id)
    requires db.Valid() && k < |db.conversations|
    modifies db`conversations, db`clock
    ensures db.Valid()
    ensures db.conversations == old(db.conversations)[k := old(db.conversations)[k].(lastMessage := Some(id), updatedAt := old(db.clock))]
    ensures forall j :: 0 <= j < |db.conversations| && j != k ==> db.conversations[j].updatedAt < db.conversations[k].updatedAt
  {
    var savedAt := db.Tick();
    PairsIgnoreLastMessage(db.conversations, k, Some(id), savedAt);
    db.conversations := db.conversations[k := db.conversations[k].(lastMessage := Some(id), updatedAt := savedAt)];
  }

  /** A conversation created because none lists both ids keeps one conversation per pair. */
  lemma NewConversationKeepsPairs(cs: seq<Conversation>, created: Conversation, a: Id, b: Id)
    requires OneConversationPerPair(cs)
    requires ConversationWith(cs, a, b).None?
    requires created.participants == [a, b]
    ensures OneConversationPerPair(cs + [created])
  {
    var r := cs + [created];
    assert a in Members(created) && b in Members(created);
    forall i, j | 0 <= i < j < |r| ensures Members(r[i]) != Members(r[j]) {
      if j == |cs| {
        assert !(a in r[i].participants && b in r[i].participants);
      }
    }
  }

  /** Recording the last message does not change who takes part in a conversation. */
  lemma PairsIgnoreLastMessage(cs: seq<Conversation>, k: nat, last: Option<Id>, now: Time)
    requires OneConversationPerPair(cs) && k < |cs|
    ensures OneConversationPerPair(cs[k := cs[k].(lastMessage := last, updatedAt := now)])
  {
    var r := cs[k := cs[k].(lastMessage := last, updatedAt := now)];
    assert Members(r[k]) == Members(cs[k]);
    forall i | 0 <= i < |r| ensures Members(r[i]) == Members(cs[i]) {
    }
  }
}
