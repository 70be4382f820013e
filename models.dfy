/** The documents the controllers read and write (models/Post.js, models/Notification.js and the user, conversation and message documents as the controllers use them). */
module Models {
  import opened Results

  /** A document id (`_id`). */
  type Id = nat
  /** A reading of the monotone clock behind `createdAt` / `updatedAt`. */
  type Time = nat

  datatype User = User(
    id: Id, username: string, name: string, bio: string, avatar: string,
    skills: seq<string>, github: string, linkedin: string,
    followers: seq<Id>, following: seq<Id>)

  datatype Comment = Comment(user: Id, text: string, createdAt: Time)

  datatype Post = Post(
    id: Id, author: Id, text: string, image: Option<string>,
    likes: seq<Id>, comments: seq<Comment>, createdAt: Time, updatedAt: Time)

  datatype Conversation = Conversation(
    id: Id, participants: seq<Id>, lastMessage: Option<Id>, createdAt: Time, updatedAt: Time)

  datatype Message = Message(id: Id, conversation: Id, sender: Id, text: string, createdAt: Time)

  /** The `type` enum of a notification. */
  datatype NotificationType = FollowType | LikeType | CommentType | MessageType

  datatype Notification = Notification(
    id: Id, recipient: Id, sender: Id, kind: NotificationType, post: Option<Id>,
    read: bool, createdAt: Time, updatedAt: Time)

  /** A notification as `Notification.create` leaves it: no post reference and `read` at its default, false. */
  function NewNotification(id: Id, recipient: Id, sender: Id, kind: NotificationType, now: Time): (n: Notification)
    ensures !n.read && n.post.None?
    ensures n.recipient == recipient && n.sender == sender && n.kind == kind
  {
    Notification(id, recipient, sender, kind, None, false, now, now)
  }
}
