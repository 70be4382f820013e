# Developer Connect backend — a Dafny model

This project models the state-changing rules of the Developer Connect backend, an
Express + Mongoose + socket.io social network, and proves properties of the model.
It has two parts.

**Presence and real-time routing** (`presence.dfy`, after `Backend/socket/socketHandler.js`).
A `Gateway` object holds the module-level registry `onlineUsers` as a `map<string,string>`
from user id to socket id, the flag "the server `io` exists", and an outbox: every emit is
recorded as an `Event(target, kind, payload)`. The target is `Everyone` for `io.emit` and
`Socket(id)` for `io.to(id).emit`. The handlers `register`, `disconnect`, `send-message` and
`typing` are methods, and so are the helpers `sendNotification` and `sendMessageToUser`. The
registry stays injective: no two users share a socket. `register` keeps it injective by
dropping any entry keyed by the user or bound to the socket before it binds the user. Ids are
strings, so the raw id the loop compares and the `toString()` the map stores are the same. A
missing or falsy id is written `""`.

**Controller rules over the document store** (`store.dfy` and one module per controller).
A `Database` object holds sequences of users, posts, conversations, messages and
notifications. It also holds a monotone clock: every write stamps `createdAt`/`updatedAt`
with it and then advances it. A counter hands out fresh document ids. Its invariant `Valid()`
says:

- user ids are unique;
- the follow relation is symmetric (A is among B's followers exactly when B is among A's followings);
- every conversation has two participant entries, and no two conversations have the same participants;
- every user, post, conversation, message and notification id is below the counter, so a fresh id never equals a stored one (the counter starts above the accounts' ids);
- every time stamp of a post, conversation, message or notification is before the clock.

Handlers are methods on a `db: Database`. The handlers that can fail (`toggleFollow`,
`toggleLike`, `addComment`, `deletePost`, `sendMessage`) answer `Ok(payload)` or
`Err(status)` with status 400, 403 or 404. `createPost` and `markAsRead` have no error
path in the model and return their payload directly. Every handler's frame names the
collections it may write, so it changes nothing else. The read-only queries are functions: `getFeed`, `getConversations`,
`getMessages`, `getNotifications` and `getProfileByUsername`. Each is proved to return
exactly the matching records (as a multiset) in the requested order.

Consequences of the code that the model keeps and proves:

- `register` broadcasts `user-online` on every call, even a repeated one. Only the registry is idempotent.
- A self-addressed `sendMessage` finds any conversation the sender takes part in, because the lookup asks for a conversation whose participants include both ids.
- `getMessages` does not change the messages.

## Model

| member | source | states |
|---|---|---|
| `Presence.Gateway.constructor` | Backend/socket/socketHandler.js:3-4 | before `initSocket` there is no server and the registry is empty |
| `Presence.Gateway.Init` | Backend/socket/socketHandler.js:6-7 | `initSocket` creates the server and leaves the registry alone |
| `Presence.Registered` | Backend/socket/socketHandler.js:22-28 | after registering u on s, u maps to s, no other key maps to s, and every entry with key ≠ u and value ≠ s is kept |
| `Presence.RegisteredInjective` | Backend/socket/socketHandler.js:22-28 | registering keeps the registry injective |
| `Presence.RegisteredIdempotent` | Backend/socket/socketHandler.js:22-28 | registering (u, s) a second time leaves the registry as one registration did |
| `Presence.SecondTabWins` | Backend/socket/socketHandler.js:22-28 | after two tabs register the same user, deliveries go only to the second socket and the first socket is gone from the registry |
| `Presence.Gateway.Register` | Backend/socket/socketHandler.js:18-33 | a falsy id changes nothing and emits nothing; otherwise the registry becomes `Registered(old, u, s)`, stays injective, and exactly one `user-online` broadcast for u is emitted per call |
| `Presence.Gateway.Disconnect` | Backend/socket/socketHandler.js:54-68 | the entry bound to the socket is removed and `user-offline` with its key is broadcast exactly when there was one; otherwise nothing changes and nothing is emitted |
| `Presence.Deliver` | Backend/socket/socketHandler.js:38-40 | a directed emit produces one event to the receiver's socket when the receiver is registered with a truthy socket, and no event otherwise |
| `Presence.Lookup` | Backend/socket/socketHandler.js:38 | `onlineUsers.get` yields the bound socket, or a falsy value for an absent user |
| `Presence.Gateway.SendMessage` | Backend/socket/socketHandler.js:36-45 | appends `Deliver(..., receive-message, message)` to the outbox; only the outbox may change |
| `Presence.Gateway.Typing` | Backend/socket/socketHandler.js:48-51 | appends `Deliver(..., typing, senderId)`; only the outbox may change |
| `Presence.Gateway.SendNotification` | Backend/socket/socketHandler.js:73-80 | emits nothing before the server exists or for a falsy id; otherwise appends `Deliver(..., new-notification, ...)`; the registry is unchanged |
| `Presence.Gateway.SendMessageToUser` | Backend/socket/socketHandler.js:83-90 | the same rule with a `receive-message` event |
| `Store.UserIndex` | Backend/controllers/profileController.js:70 | `findById` yields an index holding that id, or none when no user has it |
| `Store.UserByName` | Backend/controllers/profileController.js:69 | `findOne({username})` yields an index with that username, or none when no user has it |
| `Store.PostIndex` | Backend/controllers/postController.js:34 | `findById` on posts, as above |
| `Store.ConversationWith` | Backend/controllers/messageController.js:40-42 | the first conversation whose participants include both ids; none exactly when no conversation includes both |
| `Store.AtMostOneConversationPerPair` | Backend/controllers/messageController.js:40-48 | under the store invariant, two distinct users share at most one conversation |
| `Models.NewNotification` | Backend/models/Notification.js:20-26 | a created notification has no post reference and `read` at its default, false |
| `Store.Database.CreateNotification` | Backend/controllers/profileController.js:99-103 | `Notification.create` appends exactly one fresh unread notification with the given recipient, sender and type |
| `Store.Database.CreateMessage` | Backend/controllers/messageController.js:51-55 | `Message.create` appends exactly one fresh message with the given conversation, sender and text |
| `Store.FirstFreeId` | Backend/controllers/messageController.js:45-55 | the counter of fresh document ids starts above every account's id, so created conversations, messages and notifications never reuse a user's id |
| `Seqs.WithoutIsFilter` | Backend/controllers/profileController.js:87-92 | removing an id with `filter` keeps every other id in its original order |
| `Profiles.FollowToggled` | Backend/controllers/profileController.js:83-96 | on unfollow, the target leaves the caller's followings and the caller leaves the target's followers, with all other entries kept; on follow, both ids are appended; no other user and no other field changes |
| `Profiles.FollowToggledSymmetric` | Backend/controllers/profileController.js:83-96 | a toggle keeps the follow relation symmetric over all users, and user ids unique |
| `Profiles.ToggleFollow` | Backend/controllers/profileController.js:67-113 | unknown handle gives 404 and self gives 400, both with no change; otherwise the users become `FollowToggled`, one `follow` notification (target ← caller) is created only on follow, and the reply is `isFollowing = !alreadyFollowing` with the target's new follower count |
| `Profiles.ProfileByUsername` | Backend/controllers/profileController.js:20-60 | 404 exactly when no user has the handle; otherwise the counts are the list lengths, `isFollowing` holds iff the caller is a follower, `isOwnProfile` iff the ids are equal, and the posts are exactly that user's, newest first |
| `Profiles.NormaliseSkills` | Backend/controllers/profileController.js:126-130 | an array is kept as is; a non-empty string becomes its comma-separated pieces, each trimmed; an absent or empty value leaves skills out |
| `Profiles.Updates` | Backend/controllers/profileController.js:123-134 | the update carries the body's name, bio, github and linkedin, the normalised skills only when given, and the avatar only when a file was uploaded |
| `Text.Split` | Backend/controllers/profileController.js:129 | `split(",")` gives at least one piece, no piece holds a comma, and joining the pieces with commas gives the string back |
| `Text.SplitJoin` | Backend/controllers/profileController.js:129 | splitting a comma-join of comma-free pieces gives the pieces back |
| `Text.Trim` | Backend/controllers/profileController.js:129 | `trim()` removes a white-space prefix and suffix and leaves no white space at either end |
| `Posts.CreatePost` | Backend/controllers/postController.js:4-12 | appends exactly one post by the caller with the given text and image, no likes, no comments, a fresh id and the newest time stamp |
| `Posts.Feed` | Backend/controllers/postController.js:19-25 | all posts, each as often as stored, ordered newest first by `createdAt` |
| `Posts.NewPostHeadsFeed` | Backend/controllers/postController.js:21-24 | a post created after all others is first in the feed |
| `Posts.ToggledLikes` | Backend/controllers/postController.js:38-44 | after the toggle the caller is in `likes` iff they were not before; other ids keep their count; a like appends the caller at the end |
| `Posts.LikeTwiceRestores` | Backend/controllers/postController.js:38-44 | liking then unliking from a state without the caller restores `likes` exactly |
| `Posts.ToggleLike` | Backend/controllers/postController.js:32-47 | missing post gives 404 with no change; otherwise only that post changes, its likes become `ToggledLikes`, and the reply is `liked = !before` with the new count (old count + 1 on a like) |
| `Posts.AddComment` | Backend/controllers/postController.js:54-65 | missing post gives 404 with no change; otherwise exactly one comment by the caller is appended after the unchanged earlier ones, and the reply is the full list |
| `Posts.DeletePost` | Backend/controllers/postController.js:72-82 | missing post gives 404 and a non-author gets 403, both with no change; the author's delete removes exactly that post |
| `Messages.ConversationsOf` | Backend/controllers/messageController.js:6-15 | exactly the conversations whose participants include the caller, most recently updated first |
| `Messages.LatestConversationFirst` | Backend/controllers/messageController.js:8-13 | the conversation with the latest `updatedAt` heads the list of each of its participants |
| `Messages.MessagesOf` | Backend/controllers/messageController.js:22-27 | exactly the messages of the conversation, oldest first |
| `Messages.SelfSendFindsAnyOwnConversation` | Backend/controllers/messageController.js:40-42 | with sender = receiver the lookup matches the first conversation that contains the sender |
| `Messages.FindOrCreateConversation` | Backend/controllers/messageController.js:40-48 | an existing conversation with both ids is reused with nothing created; otherwise exactly one conversation `[sender, receiver]` with a fresh id is appended; one conversation per pair is kept |
| `Messages.RecordLastMessage` | Backend/controllers/messageController.js:58-59 | only that conversation changes: `lastMessage` becomes the message and `updatedAt` the latest time |
| `Messages.NewConversationKeepsPairs` | Backend/controllers/messageController.js:44-48 | creating a conversation only when none includes both ids keeps the participant sets pairwise distinct |
| `Messages.PairsIgnoreLastMessage` | Backend/controllers/messageController.js:58-59 | setting the last message keeps the participant sets |
| `Messages.SendMessage` | Backend/controllers/messageController.js:34-73 | a missing receiver or empty text gives 400 with nothing created; otherwise the conversation is found or created, exactly one message (that conversation, sender = caller, the text) is appended and becomes its `lastMessage`, and a `message` notification (receiver ← caller) is created iff receiver ≠ caller |
| `Notifications.NotificationsOf` | Backend/controllers/notificationController.js:4-11 | exactly the caller's notifications, newest first |
| `Notifications.MarkedRead` | Backend/controllers/notificationController.js:21-24 | same length; every notification of the caller is read; other recipients' notifications and already-read ones are unchanged; only `read` and `updatedAt` may differ |
| `Notifications.MarkedReadIdempotent` | Backend/controllers/notificationController.js:21-24 | marking read twice gives the same notifications as once |
| `Notifications.MarkAsRead` | Backend/controllers/notificationController.js:19-34 | the store's notifications become `MarkedRead`, and the reply is the caller's list, newest first, all read |

## Left out

- The frontend, the Express and socket.io server wiring and CORS, authentication (bcrypt, JWT, cookies). Every route sits behind the authentication middleware, so each handler takes the caller's id as a parameter. `ToggleFollow` requires that id to belong to a stored user, because the middleware loaded it.
- `getMyProfile`: it only reads the caller's document with `populate`, and it has no rule to model.
- Applying the `updateProfile` update with `findByIdAndUpdate`: the model builds the update (`Profiles.Updates`) but does not apply it. The uploaded avatar is an optional path.
- `populate`: references are kept as ids. Schema validation on save (for instance an empty post or comment text) and every 500 path (a thrown exception, a malformed id) are not modelled.
- Logging (`console.log`), and the asynchronous and concurrent execution of handlers. Everything runs one request at a time, so the find-or-create race between two first messages cannot arise.
- JavaScript falsy ids other than the empty string (`undefined`, `null`, `0`) are all written `""`.
- `Map` iteration order: `disconnect` stops at the first entry bound to the socket. Under the injectivity invariant there is at most one, so the model does not track insertion order.
- Ties in sorts: the clock makes time stamps distinct, so the order among equal keys is not modelled.
- The message read flag and its mark-read route: `markAsRead` is routed in `Backend/routes/messageRoutes.js` but not defined in the message controller. Message.js, Conversation.js and User.js are not part of this model. Their fields are taken from how the controllers use them.
- `updatedAt` of comments and user time stamps. Mongoose sets `updatedAt` on every `save()` and `updateMany`, and the model stamps posts, conversations and notifications.
- The code implements no online-roster broadcast, no `get-online-users` event, no message alert and no notification for likes or comments, so the model has none. `getMessages` marks no message read.
