/**
 * One row of the chat sidebar: the mark-as-read effect, the preview text of
 * the last message and the unread flag.
 */
module ChatListItem {
  import opened Options
  import opened Entities
  import opened Text
  import ChatReducer
  import ChatStore

  /** The read map after the row's effect ran: the chat is marked read when the path names it and it has a last message. */
  function ReadAfterVisit(read: map<string, string>, pathname: string, chat: Chat): (r: map<string, string>)
    ensures Contains(pathname, chat.id) && chat.lastMessage.Some? ==> r == read[chat.id := chat.lastMessage.value.id]
    ensures !(Contains(pathname, chat.id) && chat.lastMessage.Some?) ==> r == read
  {
    if Contains(pathname, chat.id) && chat.lastMessage.Some? then read[chat.id := chat.lastMessage.value.id] else read
  }

  /** The effect, calling markChatAsRead on the store. */
  method MarkReadEffect(store: ChatStore.Store, pathname: string, chat: Chat)
    modifies store
    ensures store.State() == old(store.State()).(readMessages := ReadAfterVisit(old(store.readMessages), pathname, chat))
  {
    if Contains(pathname, chat.id) && chat.lastMessage.Some? {
      store.MarkChatAsRead(chat.id, chat.lastMessage.value.id);
    }
  }

  /** While the chat's page `/chat/<id>` is open its row never shows the unread dot. */
  lemma OpenChatShowsNoUnread(read: map<string, string>, chat: Chat, userId: Option<string>)
    ensures !ChatReducer.Unread(ReadAfterVisit(read, "/chat/" + chat.id, chat), chat.id, chat.lastMessage, userId)
  {
    ContainsSuffix("/chat/", chat.id);
    if chat.lastMessage.Some? {
      ChatReducer.UnreadClearedByMark(read, chat.id, chat.lastMessage.value, userId);
    }
  }

  /** The unread dot and bold preview style: isMessageUnread for the row's chat and last message. */
  function ShowsUnread(read: map<string, string>, chat: Chat, userId: Option<string>): (b: bool)
    ensures b <==> chat.lastMessage.Some? && Present(userId) && ChatReducer.SenderId(chat.lastMessage.value) != userId
                   && (chat.id !in read || read[chat.id] != chat.lastMessage.value.id)
  {
    ChatReducer.Unread(read, chat.id, chat.lastMessage, userId)
  }

  /** The last message was sent by the current user (an anonymous message never is). */
  predicate OwnMessage(m: Message, userId: Option<string>) {
    m.sender.Some? && Some(m.sender.value.id) == userId
  }

  /**
   * Template interpolation of a possibly absent string: `null` and `undefined`
   * are both modelled as None, and both are rendered here as "null".
   */
  function Interpolate(o: Option<string>): string {
    if o.Some? then o.value else "null"
  }

  /**
   * getLastMessageText; `None` is the null content of a direct-chat message
   * from someone else, which renders as nothing.
   */
  function LastMessageText(chat: Chat, userId: Option<string>): (r: Option<string>)
    ensures chat.lastMessage.None? ==>
      r == Some(if !chat.isGroup then "Send a message"
                else if Some(chat.createdBy) == userId then "You created the group"
                else "You were added")
    ensures chat.lastMessage.Some? && Present(chat.lastMessage.value.image) ==>
      r == Some(if OwnMessage(chat.lastMessage.value, userId) then "You sent an image." else "Sent an image.")
    ensures chat.lastMessage.Some? && !Present(chat.lastMessage.value.image) && OwnMessage(chat.lastMessage.value, userId) ==>
      r == Some("You: " + Interpolate(chat.lastMessage.value.content))
    ensures chat.lastMessage.Some? && !Present(chat.lastMessage.value.image) && !OwnMessage(chat.lastMessage.value, userId) ==>
      r == (if chat.isGroup && chat.lastMessage.value.sender.Some?
            then Some(chat.lastMessage.value.sender.value.name + ": " + Interpolate(chat.lastMessage.value.content))
            else chat.lastMessage.value.content)
  {
    if chat.lastMessage.None? then
      Some(if chat.isGroup then (if Some(chat.createdBy) == userId then "You created the group" else "You were added")
           else "Send a message")
    else
      var m := chat.lastMessage.value;
      if Present(m.image) then
        Some(if OwnMessage(m, userId) then "You sent an image." else "Sent an image.")
      else if chat.isGroup && m.sender.Some? then
        assert "You" + ": " + Interpolate(m.content) == "You: " + Interpolate(m.content);
        Some((if OwnMessage(m, userId) then "You" else m.sender.value.name)
             + ": " + Interpolate(m.content))
      else if OwnMessage(m, userId) then
        Some("You: " + Interpolate(m.content))
      else
        m.content
  }

  /** An image message's preview does not depend on its text. */
  lemma ImagePreviewIgnoresContent(chat: Chat, userId: Option<string>, content: Option<string>)
    requires chat.lastMessage.Some? && Present(chat.lastMessage.value.image)
    ensures LastMessageText(chat.(lastMessage := Some(chat.lastMessage.value.(content := content))), userId)
         == LastMessageText(chat, userId)
  {
  }

  /** Group and direct chats preview the current user's own text message alike. */
  lemma OwnTextPreviewIgnoresChatKind(chat: Chat, userId: Option<string>)
    requires chat.lastMessage.Some? && !Present(chat.lastMessage.value.image) && OwnMessage(chat.lastMessage.value, userId)
    ensures LastMessageText(chat.(isGroup := true), userId) == LastMessageText(chat.(isGroup := false), userId)
  {
  }
}
