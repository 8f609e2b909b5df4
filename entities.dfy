/**
 * The records the chat and post stores hold. Ids are opaque strings assigned
 * by the server, except the temporary ids of messages that are still sending.
 * Timestamps are ISO strings the model never inspects.
 */
module Entities {
  import opened Options

  /** A user summary as embedded in chats, messages, posts and profiles. */
  datatype User = User(id: string, name: string, avatar: Option<string>)

  /** A chat message; `status` is set only on a local echo that is still sending. */
  datatype Message = Message(
    id: string,
    chatId: string,
    sender: Option<User>,
    content: Option<string>,
    image: Option<string>,
    replyTo: Option<Message>,
    createdAt: string,
    updatedAt: string,
    status: Option<string>)

  /** A direct or group conversation with a denormalised copy of its newest message. */
  datatype Chat = Chat(
    id: string,
    participants: seq<User>,
    isGroup: bool,
    groupName: Option<string>,
    groupImage: Option<string>,
    createdBy: string,
    lastMessage: Option<Message>,
    createdAt: string)

  /** The open conversation: a chat and its messages in insertion order. */
  datatype Transcript = Transcript(chat: Chat, messages: seq<Message>)

  /** A feed post with its denormalised like list and counters. */
  datatype Post = Post(
    id: string,
    author: User,
    caption: Option<string>,
    images: seq<string>,
    location: Option<string>,
    likes: seq<string>,
    likesCount: int,
    commentsCount: int,
    createdAt: string,
    updatedAt: string)

  /** A comment on a post; `parentComment` is set on a reply. */
  datatype Comment = Comment(
    id: string,
    postId: string,
    author: User,
    content: string,
    likes: seq<string>,
    likesCount: int,
    parentComment: Option<string>,
    createdAt: string,
    updatedAt: string)

  /** The counters shown on a profile. */
  datatype Stats = Stats(posts: int, followers: int, following: int, chats: int)

  /** A user's profile page header. */
  datatype UserProfile = UserProfile(user: User, stats: Stats, isOwnProfile: bool)

  function ChatId(c: Chat): string { c.id }

  function MessageId(m: Message): string { m.id }

  function PostId(p: Post): string { p.id }
}
