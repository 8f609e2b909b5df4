/**
 * The chat store's state and the pure state transitions behind its local
 * actions: the chat list (move-to-front upsert, patch-and-promote, replace,
 * remove), the active transcript (chat-scoped append with duplicate
 * suppression, replace, remove, clear), the read markers, and the
 * local echo, confirmation and rollback of an optimistic send.
 */
module ChatReducer {
  import opened Options
  import opened Entities
  import Keyed
  import Text

  /** Every field of the store, as one value. */
  datatype StoreState = StoreState(
    chats: seq<Chat>,
    singleChat: Option<Transcript>,
    readMessages: map<string, string>,
    isChatsLoading: bool,
    isCreatingChat: bool,
    isSingleChatLoading: bool,
    isSendingMsg: bool,
    isLoadingMore: bool,
    hasMoreChats: bool)

  /** The store's local actions, one constructor per action. */
  datatype Action =
    | AddNewChat(chat: Chat)
    | UpdateChatLastMessage(chatId: string, lastMessage: Message)
    | UpdateChatInList(updatedChat: Chat)
    | RemoveChatFromList(chatId: string)
    | AddNewMessage(chatId: string, message: Message)
    | RemoveMessageFromChat(chatId: string, messageId: string)
    | ClearMessagesInChat(chatId: string)
    | UpdateMessageInChat(chatId: string, updatedMessage: Message)
    | MarkChatAsRead(chatId: string, messageId: string)

  function Ids(chats: seq<Chat>): seq<string> { Keyed.Keys(chats, ChatId) }

  function MessageIds(ms: seq<Message>): seq<string> { Keyed.Keys(ms, MessageId) }

  /** No duplicate chat in the list and no duplicate message in the open transcript. */
  predicate WellFormed(s: StoreState) {
    && Keyed.Unique(Ids(s.chats))
    && (s.singleChat.Some? ==> Keyed.Unique(MessageIds(s.singleChat.value.messages)))
  }

  lemma KeysAppend<T>(a: seq<T>, b: seq<T>, key: T -> string)
    ensures Keyed.Keys(a + b, key) == Keyed.Keys(a, key) + Keyed.Keys(b, key)
  {
  }

  // ---------------------------------------------------------------- chat list

  /** addNewChat: the chat goes to index 0 and every other entry with its id is dropped. */
  function UpsertFront(chats: seq<Chat>, chat: Chat): (r: seq<Chat>)
    ensures |r| >= 1 && r[0] == chat
    ensures r[1..] == Keyed.Without(chats, ChatId, chat.id)
    ensures chat.id !in Ids(r[1..])
  {
    if Keyed.IndexOf(chats, ChatId, chat.id) != -1 then
      [chat] + Keyed.Without(chats, ChatId, chat.id)
    else
      Keyed.WithoutAbsent(chats, ChatId, chat.id);
      [chat] + chats
  }

  /** With unique ids, the list grows by one for a new id and keeps its length otherwise. */
  lemma UpsertFrontLength(chats: seq<Chat>, chat: Chat)
    requires Keyed.Unique(Ids(chats))
    ensures |UpsertFront(chats, chat)| == if chat.id in Ids(chats) then |chats| else |chats| + 1
  {
    Keyed.WithoutUniqueLength(chats, ChatId, chat.id);
  }

  /** Upserting keeps chat ids unique. */
  lemma UpsertFrontKeepsUnique(chats: seq<Chat>, chat: Chat)
    requires Keyed.Unique(Ids(chats))
    ensures Keyed.Unique(Ids(UpsertFront(chats, chat)))
  {
    var rest := Keyed.Without(chats, ChatId, chat.id);
    Keyed.WithoutKeepsUnique(chats, ChatId, chat.id);
    Keyed.UniqueCons(chat.id, Ids(rest));
    KeysAppend([chat], rest, ChatId);
  }

  /** Delivering the same chat twice gives the list it gives once. */
  lemma UpsertFrontIdempotent(chats: seq<Chat>, chat: Chat)
    ensures UpsertFront(UpsertFront(chats, chat), chat) == UpsertFront(chats, chat)
  {
    var r := UpsertFront(chats, chat);
    var rest := Keyed.Without(chats, ChatId, chat.id);
    assert r == [chat] + rest;
    Keyed.WithoutAppend([chat], rest, ChatId, chat.id);
    Keyed.WithoutTwice(chats, ChatId, chat.id);
    assert Keyed.Without([chat], ChatId, chat.id) == [];
  }

  /** A chat already at the head is updated in place: the order of the list is unchanged. */
  lemma UpsertFrontAtHead(chats: seq<Chat>, chat: Chat)
    requires |chats| > 0 && chats[0].id == chat.id
    requires Keyed.Unique(Ids(chats))
    ensures UpsertFront(chats, chat) == [chat] + chats[1..]
  {
    assert chats == [chats[0]] + chats[1..];
    Keyed.WithoutAppend([chats[0]], chats[1..], ChatId, chat.id);
    assert Keyed.Without([chats[0]], ChatId, chat.id) == [];
    assert chat.id !in Ids(chats[1..]) by {
      forall i | 0 <= i < |chats| - 1 ensures Ids(chats[1..])[i] != chat.id {
        assert Ids(chats)[0] != Ids(chats)[i + 1];
      }
    }
    Keyed.WithoutAbsent(chats[1..], ChatId, chat.id);
  }

  /**
   * updateChatLastMessage: unknown ids leave the list alone; otherwise the
   * first chat with the id, with only its lastMessage replaced, is moved to
   * the front as addNewChat would.
   */
  function PatchLastMessage(chats: seq<Chat>, chatId: string, m: Message): (r: seq<Chat>)
    ensures chatId !in Ids(chats) ==> r == chats
    ensures chatId in Ids(chats) ==>
      r == UpsertFront(chats, chats[Keyed.IndexOf(chats, ChatId, chatId)].(lastMessage := Some(m)))
  {
    match Keyed.Find(chats, ChatId, chatId)
    case None => chats
    case Some(c) => [c.(lastMessage := Some(m))] + Keyed.Without(chats, ChatId, chatId)
  }

  /** A repeated chat:update event is harmless. */
  lemma PatchLastMessageIdempotent(chats: seq<Chat>, chatId: string, m: Message)
    ensures PatchLastMessage(PatchLastMessage(chats, chatId, m), chatId, m) == PatchLastMessage(chats, chatId, m)
  {
    if chatId in Ids(chats) {
      var c' := chats[Keyed.IndexOf(chats, ChatId, chatId)].(lastMessage := Some(m));
      var r := UpsertFront(chats, c');
      assert Ids(r)[0] == chatId;
      assert Keyed.IndexOf(r, ChatId, chatId) == 0;
      assert r[0].(lastMessage := Some(m)) == c';
      UpsertFrontIdempotent(chats, c');
    }
  }

  /** The list [A, B, C] with a chat:update for C becomes [C', A, B]. */
  lemma PatchLastMessageScenario(a: Chat, b: Chat, c: Chat, m: Message)
    requires a.id != b.id && b.id != c.id && a.id != c.id
    ensures PatchLastMessage([a, b, c], c.id, m) == [c.(lastMessage := Some(m)), a, b]
  {
    var s := [a, b, c];
    assert Ids(s)[2] == c.id;
    assert Keyed.IndexOf(s, ChatId, c.id) == 2;
    assert s[1..][1..] == [c];
    assert Keyed.Without([c], ChatId, c.id) == [];
    assert Keyed.Without(s[1..], ChatId, c.id) == [b];
  }

  /** updateChatInList's effect on the open transcript: its chat is replaced when the ids match. */
  function ReplaceActiveChat(t: Option<Transcript>, updated: Chat): (r: Option<Transcript>)
    ensures IsActive(t, updated.id) ==> r == Some(t.value.(chat := updated))
    ensures !IsActive(t, updated.id) ==> r == t
  {
    if IsActive(t, updated.id) then Some(t.value.(chat := updated)) else t
  }

  // ---------------------------------------------------------------- transcript

  /** The open transcript is the chat `chatId`. */
  predicate IsActive(t: Option<Transcript>, chatId: string) {
    t.Some? && t.value.chat.id == chatId
  }

  /** addNewMessage: appends only to the matching open chat, and only a message id not yet present. */
  function AppendNew(t: Option<Transcript>, chatId: string, m: Message): (r: Option<Transcript>)
    ensures !IsActive(t, chatId) ==> r == t
    ensures IsActive(t, chatId) && m.id in MessageIds(t.value.messages) ==> r == t
    ensures IsActive(t, chatId) && m.id !in MessageIds(t.value.messages) ==>
      r == Some(t.value.(messages := t.value.messages + [m]))
    ensures IsActive(t, chatId) ==> IsActive(r, chatId) && m.id in MessageIds(r.value.messages)
  {
    if !IsActive(t, chatId) then t
    else if m.id in MessageIds(t.value.messages) then t
    else
      KeysAppend(t.value.messages, [m], MessageId);
      Some(t.value.(messages := t.value.messages + [m]))
  }

  /** removeMessageFromChat: drops the entries with that id from the matching open chat. */
  function RemoveMessage(t: Option<Transcript>, chatId: string, messageId: string): (r: Option<Transcript>)
    ensures !IsActive(t, chatId) ==> r == t
    ensures IsActive(t, chatId) ==>
      r == Some(t.value.(messages := Keyed.Without(t.value.messages, MessageId, messageId)))
  {
    if IsActive(t, chatId) then
      Some(t.value.(messages := Keyed.Without(t.value.messages, MessageId, messageId)))
    else t
  }

  /** clearMessagesInChat: empties the matching open chat. */
  function ClearMessages(t: Option<Transcript>, chatId: string): (r: Option<Transcript>)
    ensures !IsActive(t, chatId) ==> r == t
    ensures IsActive(t, chatId) ==> r == Some(t.value.(messages := []))
  {
    if IsActive(t, chatId) then Some(t.value.(messages := [])) else t
  }

  /** updateMessageInChat: replaces the entries with the updated message's id in the matching open chat. */
  function UpdateMessage(t: Option<Transcript>, chatId: string, m: Message): (r: Option<Transcript>)
    ensures !IsActive(t, chatId) ==> r == t
    ensures IsActive(t, chatId) ==>
      r == Some(t.value.(messages := Keyed.ReplaceAll(t.value.messages, MessageId, m.id, m)))
  {
    if IsActive(t, chatId) then
      Some(t.value.(messages := Keyed.ReplaceAll(t.value.messages, MessageId, m.id, m)))
    else t
  }

  /** Editing or deleting a message id the transcript does not hold changes nothing. */
  lemma UnknownMessageIdIsNoop(t: Option<Transcript>, chatId: string, m: Message, messageId: string)
    requires t.Some? && m.id !in MessageIds(t.value.messages) && messageId !in MessageIds(t.value.messages)
    ensures UpdateMessage(t, chatId, m) == t
    ensures RemoveMessage(t, chatId, messageId) == t
  {
    Keyed.ReplaceAbsent(t.value.messages, MessageId, m.id, m);
    Keyed.WithoutAbsent(t.value.messages, MessageId, messageId);
  }

  // ---------------------------------------------------------------- actions

  /** The effect of one local action on the whole store. */
  function Reduce(s: StoreState, a: Action): (r: StoreState)
    ensures r.(chats := s.chats, singleChat := s.singleChat, readMessages := s.readMessages) == s
    ensures !a.MarkChatAsRead? ==> r.readMessages == s.readMessages
    ensures a.MarkChatAsRead? ==> r.chats == s.chats && r.singleChat == s.singleChat
  {
    match a
    case AddNewChat(c) => s.(chats := UpsertFront(s.chats, c))
    case UpdateChatLastMessage(id, m) => s.(chats := PatchLastMessage(s.chats, id, m))
    case UpdateChatInList(c) =>
      s.(chats := Keyed.ReplaceAll(s.chats, ChatId, c.id, c),
         singleChat := ReplaceActiveChat(s.singleChat, c))
    case RemoveChatFromList(id) =>
      s.(chats := Keyed.Without(s.chats, ChatId, id),
         singleChat := if IsActive(s.singleChat, id) then None else s.singleChat)
    case AddNewMessage(id, m) => s.(singleChat := AppendNew(s.singleChat, id, m))
    case RemoveMessageFromChat(id, mid) => s.(singleChat := RemoveMessage(s.singleChat, id, mid))
    case ClearMessagesInChat(id) => s.(singleChat := ClearMessages(s.singleChat, id))
    case UpdateMessageInChat(id, m) => s.(singleChat := UpdateMessage(s.singleChat, id, m))
    case MarkChatAsRead(id, mid) => s.(readMessages := s.readMessages[id := mid])
  }

  /** Every local action is idempotent: a duplicated socket event is a no-op the second time. */
  lemma {:induction false} ReduceIdempotent(s: StoreState, a: Action)
    ensures Reduce(Reduce(s, a), a) == Reduce(s, a)
  {
    match a
    case AddNewChat(c) => UpsertFrontIdempotent(s.chats, c);
    case UpdateChatLastMessage(id, m) => PatchLastMessageIdempotent(s.chats, id, m);
    case UpdateChatInList(c) => Keyed.ReplaceSameKey(s.chats, ChatId, c);
    case RemoveChatFromList(id) => Keyed.WithoutTwice(s.chats, ChatId, id);
    case AddNewMessage(id, m) =>
    case RemoveMessageFromChat(id, mid) =>
      if IsActive(s.singleChat, id) {
        Keyed.WithoutTwice(s.singleChat.value.messages, MessageId, mid);
      }
    case ClearMessagesInChat(id) =>
    case UpdateMessageInChat(id, m) =>
      if IsActive(s.singleChat, id) {
        Keyed.ReplaceSameKey(s.singleChat.value.messages, MessageId, m);
      }
    case MarkChatAsRead(id, mid) =>
  }

  /** Every local action keeps chat ids and message ids unique. */
  lemma ReducePreservesWellFormed(s: StoreState, a: Action)
    requires WellFormed(s)
    ensures WellFormed(Reduce(s, a))
  {
    if a.AddNewChat? || a.UpdateChatLastMessage? || a.UpdateChatInList? || a.RemoveChatFromList? {
      ChatActionPreservesWellFormed(s, a);
    } else {
      TranscriptActionPreservesWellFormed(s, a);
    }
  }

  lemma {:induction false} ChatActionPreservesWellFormed(s: StoreState, a: Action)
    requires WellFormed(s)
    requires a.AddNewChat? || a.UpdateChatLastMessage? || a.UpdateChatInList? || a.RemoveChatFromList?
    ensures WellFormed(Reduce(s, a))
  {
    var r := Reduce(s, a);
    match a
    case AddNewChat(c) =>
      UpsertFrontKeepsUnique(s.chats, c);
      assert r.singleChat == s.singleChat;
    case UpdateChatLastMessage(id, m) =>
      PatchKeepsUnique(s.chats, id, m);
      assert r.singleChat == s.singleChat;
    case UpdateChatInList(c) =>
      Keyed.ReplaceSameKey(s.chats, ChatId, c);
      assert r.singleChat.Some? ==> r.singleChat.value.messages == s.singleChat.value.messages;
    case RemoveChatFromList(id) =>
      Keyed.WithoutKeepsUnique(s.chats, ChatId, id);
      assert r.singleChat.Some? ==> r.singleChat == s.singleChat;
  }

  lemma {:induction false} TranscriptActionPreservesWellFormed(s: StoreState, a: Action)
    requires WellFormed(s)
    requires !(a.AddNewChat? || a.UpdateChatLastMessage? || a.UpdateChatInList? || a.RemoveChatFromList?)
    ensures WellFormed(Reduce(s, a))
  {
    var r := Reduce(s, a);
    assert r.chats == s.chats;
    match a
    case AddNewMessage(id, m) =>
      AppendNewKeepsUnique(s.singleChat, id, m);
    case RemoveMessageFromChat(id, mid) =>
      if IsActive(s.singleChat, id) {
        Keyed.WithoutKeepsUnique(s.singleChat.value.messages, MessageId, mid);
      }
    case ClearMessagesInChat(id) =>
    case UpdateMessageInChat(id, m) =>
      if IsActive(s.singleChat, id) {
        Keyed.ReplaceSameKey(s.singleChat.value.messages, MessageId, m);
      }
    case MarkChatAsRead(id, mid) =>
  }

  lemma PatchKeepsUnique(chats: seq<Chat>, chatId: string, m: Message)
    requires Keyed.Unique(Ids(chats))
    ensures Keyed.Unique(Ids(PatchLastMessage(chats, chatId, m)))
  {
    if chatId in Ids(chats) {
      UpsertFrontKeepsUnique(chats, chats[Keyed.IndexOf(chats, ChatId, chatId)].(lastMessage := Some(m)));
    }
  }

  lemma AppendNewKeepsUnique(t: Option<Transcript>, chatId: string, m: Message)
    requires t.Some? ==> Keyed.Unique(MessageIds(t.value.messages))
    ensures var r := AppendNew(t, chatId, m); r.Some? ==> Keyed.Unique(MessageIds(r.value.messages))
  {
    if IsActive(t, chatId) && m.id !in MessageIds(t.value.messages) {
      var ms := t.value.messages;
      KeysAppend(ms, [m], MessageId);
      UniqueSnoc(MessageIds(ms), m.id);
    }
  }

  lemma UniqueSnoc(ks: seq<string>, k: string)
    requires Keyed.Unique(ks) && k !in ks
    ensures Keyed.Unique(ks + [k])
  {
    var r := ks + [k];
    forall i, j | 0 <= i < j < |r| ensures r[i] != r[j] {
      if j == |ks| {
        assert r[i] == ks[i];
      } else {
        assert r[i] == ks[i] && r[j] == ks[j];
      }
    }
  }

  // ---------------------------------------------------------------- read markers

  /** The sender's id, or None when the message carries no sender. */
  function SenderId(m: Message): Option<string> {
    if m.sender.Some? then Some(m.sender.value.id) else None
  }

  /**
   * isMessageUnread: a message is unread when it exists, a user is signed in,
   * the user did not send it, and it is not the chat's recorded read marker.
   */
  function Unread(read: map<string, string>, chatId: string, m: Option<Message>, userId: Option<string>): (r: bool)
    ensures !m.Some? || !Text.Present(userId) ==> !r
    ensures m.Some? && SenderId(m.value) == userId ==> !r
    ensures m.Some? && chatId in read && read[chatId] == m.value.id ==> !r
    ensures (m.Some? && Text.Present(userId) && SenderId(m.value) != userId
             && (chatId !in read || read[chatId] != m.value.id)) ==> r
  {
    if m.None? || !Text.Present(userId) then false
    else SenderId(m.value) != userId && (chatId !in read || read[chatId] != m.value.id)
  }

  /** After markChatAsRead with a message's id, that message is no longer unread in that chat. */
  lemma UnreadClearedByMark(read: map<string, string>, chatId: string, m: Message, userId: Option<string>)
    ensures !Unread(read[chatId := m.id], chatId, Some(m), userId)
  {
  }

  /** Marking one chat leaves the unread status of every other chat as it was. */
  lemma MarkIsChatScoped(read: map<string, string>, chatId: string, messageId: string,
                         other: string, m: Option<Message>, userId: Option<string>)
    requires other != chatId
    ensures Unread(read[chatId := messageId], other, m, userId) == Unread(read, other, m, userId)
  {
  }

  // ---------------------------------------------------------------- optimistic send

  /** The status string of a local echo. */
  const SendingStatus := "sending..."

  /** The argument of sendMessage. */
  datatype SendPayload = SendPayload(
    chatId: string, content: Option<string>, image: Option<string>, replyTo: Option<Message>)

  /** sendMessage proceeds only with a chat id and a signed-in user with an id. */
  predicate CanSend(p: SendPayload, user: Option<User>) {
    p.chatId != "" && user.Some? && user.value.id != ""
  }

  /** The local echo: the temporary id, the sender, the sending status, empty content or image as null. */
  function TempMessage(tempId: string, p: SendPayload, sender: User, now: string): (m: Message)
    ensures m.id == tempId && m.chatId == p.chatId && m.sender == Some(sender)
    ensures m.status == Some(SendingStatus)
    ensures m.content == (if Text.Present(p.content) then p.content else None)
    ensures m.image == (if Text.Present(p.image) then p.image else None)
    ensures m.replyTo == p.replyTo
  {
    Message(tempId, p.chatId, Some(sender), Text.OrNull(p.content), Text.OrNull(p.image),
            p.replyTo, now, now, Some(SendingStatus))
  }

  /** The local echo is appended, without duplicate check, only to the matching open chat. */
  function EchoTemp(t: Option<Transcript>, chatId: string, temp: Message): (r: Option<Transcript>)
    ensures !IsActive(t, chatId) ==> r == t
    ensures IsActive(t, chatId) ==> r == Some(t.value.(messages := t.value.messages + [temp]))
  {
    if IsActive(t, chatId) then Some(t.value.(messages := t.value.messages + [temp])) else t
  }

  /**
   * The confirmation as the source writes it: every entry with the temporary
   * id becomes the server's message, in whatever transcript is open.
   */
  function ConfirmTempAsWritten(t: Option<Transcript>, tempId: string, m: Message): (r: Option<Transcript>)
    ensures t.None? ==> r.None?
    ensures t.Some? ==> r.Some? && r.value.chat == t.value.chat
    ensures t.Some? ==> |r.value.messages| == |t.value.messages|
    ensures t.Some? ==> forall i :: 0 <= i < |t.value.messages| ==>
      r.value.messages[i] == if t.value.messages[i].id == tempId then m else t.value.messages[i]
  {
    if t.None? then t
    else Some(t.value.(messages := Keyed.ReplaceAll(t.value.messages, MessageId, tempId, m)))
  }

  /**
   * The confirmation as evidently intended: when the server's message already
   * reached the transcript through the socket, the echo is dropped instead of
   * becoming a second copy; otherwise it is replaced in place.
   */
  function ConfirmTemp(t: Option<Transcript>, tempId: string, m: Message): (r: Option<Transcript>)
    ensures t.None? ==> r.None?
    ensures t.Some? && m.id !in MessageIds(t.value.messages) ==> r == ConfirmTempAsWritten(t, tempId, m)
    ensures t.Some? ==> r.Some? && r.value.chat == t.value.chat
  {
    if t.None? then t
    else if m.id != tempId && m.id in MessageIds(t.value.messages) then
      Some(t.value.(messages := Keyed.Without(t.value.messages, MessageId, tempId)))
    else
      Some(t.value.(messages := Keyed.ReplaceAll(t.value.messages, MessageId, tempId, m)))
  }

  /** Rollback of a failed send: the entries with the temporary id leave the open transcript. */
  function DropTemp(t: Option<Transcript>, tempId: string): (r: Option<Transcript>)
    ensures t.None? ==> r.None?
    ensures t.Some? ==> r == Some(t.value.(messages := Keyed.Without(t.value.messages, MessageId, tempId)))
  {
    if t.None? then t else Some(t.value.(messages := Keyed.Without(t.value.messages, MessageId, tempId)))
  }

  /** Echo then rollback restores the transcript exactly: length and contents return to their pre-send value. */
  lemma EchoThenDrop(t: Option<Transcript>, chatId: string, temp: Message)
    requires t.Some? ==> temp.id !in MessageIds(t.value.messages)
    ensures DropTemp(EchoTemp(t, chatId, temp), temp.id) == t
  {
    if IsActive(t, chatId) {
      var ms := t.value.messages;
      calc {
        Keyed.Without(ms + [temp], MessageId, temp.id);
        { Keyed.WithoutAppend(ms, [temp], MessageId, temp.id); }
        Keyed.Without(ms, MessageId, temp.id) + Keyed.Without([temp], MessageId, temp.id);
        { Keyed.WithoutAbsent(ms, MessageId, temp.id); }
        ms;
      }
    } else if t.Some? {
      Keyed.WithoutAbsent(t.value.messages, MessageId, temp.id);
    }
  }

  /**
   * Echo then confirmation, with no socket echo in between, leaves the server's
   * message where the echo was, both as written and corrected.
   */
  lemma EchoThenConfirm(t: Transcript, temp: Message, m: Message)
    requires temp.id !in MessageIds(t.messages) && m.id !in MessageIds(t.messages)
    ensures ConfirmTempAsWritten(EchoTemp(Some(t), t.chat.id, temp), temp.id, m) == Some(t.(messages := t.messages + [m]))
    ensures ConfirmTemp(EchoTemp(Some(t), t.chat.id, temp), temp.id, m) == Some(t.(messages := t.messages + [m]))
  {
    var ms := t.messages + [temp];
    KeysAppend(t.messages, [temp], MessageId);
    assert m.id != temp.id ==> m.id !in MessageIds(ms);
    var r := Keyed.ReplaceAll(ms, MessageId, temp.id, m);
    assert r == t.messages + [m];
  }

  /**
   * A confirmation (as written or corrected) or a rollback that arrives after
   * the user opened another chat leaves that chat alone.
   */
  lemma CompletionElsewhereIsNoop(t: Transcript, tempId: string, m: Message)
    requires tempId !in MessageIds(t.messages)
    ensures ConfirmTempAsWritten(Some(t), tempId, m) == Some(t)
    ensures ConfirmTemp(Some(t), tempId, m) == Some(t)
    ensures DropTemp(Some(t), tempId) == Some(t)
  {
    Keyed.WithoutAbsent(t.messages, MessageId, tempId);
    Keyed.ReplaceAbsent(t.messages, MessageId, tempId, m);
  }

  /**
   * As written, a socket echo of the sent message that arrives before the
   * HTTP response leaves two copies of the server's message.
   */
  lemma EchoBeforeResponseDuplicates(t: Transcript, temp: Message, m: Message)
    requires temp.id != m.id
    requires temp.id !in MessageIds(t.messages) && m.id !in MessageIds(t.messages)
    ensures var e := EchoTemp(Some(t), t.chat.id, temp);
            ConfirmTempAsWritten(AppendNew(e, t.chat.id, m), temp.id, m) == Some(t.(messages := t.messages + [m, m]))
  {
    var ms := t.messages + [temp];
    KeysAppend(t.messages, [temp], MessageId);
    var ms2 := ms + [m];
    var r := Keyed.ReplaceAll(ms2, MessageId, temp.id, m);
    assert r == t.messages + [m, m];
  }

  /**
   * With the corrected confirmation, the socket echo and the HTTP response
   * may arrive in either order: both give one copy of the server's message.
   */
  lemma {:induction false} ConfirmCommutesWithEcho(t: Transcript, temp: Message, m: Message)
    requires temp.id != m.id
    requires temp.id !in MessageIds(t.messages) && m.id !in MessageIds(t.messages)
    ensures var e := EchoTemp(Some(t), t.chat.id, temp);
            ConfirmTemp(AppendNew(e, t.chat.id, m), temp.id, m) == AppendNew(ConfirmTemp(e, temp.id, m), t.chat.id, m)
    ensures var e := EchoTemp(Some(t), t.chat.id, temp);
            ConfirmTemp(AppendNew(e, t.chat.id, m), temp.id, m) == Some(t.(messages := t.messages + [m]))
  {
    var e := EchoTemp(Some(t), t.chat.id, temp);
    var ms := t.messages + [temp];
    KeysAppend(t.messages, [temp], MessageId);
    assert m.id !in MessageIds(ms);
    var a := AppendNew(e, t.chat.id, m);
    assert a == Some(t.(messages := ms + [m]));
    // socket echo first: the response finds the server id and drops the local echo
    calc {
      Keyed.Without(ms + [m], MessageId, temp.id);
      { Keyed.WithoutAppend(ms, [m], MessageId, temp.id); }
      Keyed.Without(ms, MessageId, temp.id) + Keyed.Without([m], MessageId, temp.id);
      { Keyed.WithoutAppend(t.messages, [temp], MessageId, temp.id);
        Keyed.WithoutAbsent(t.messages, MessageId, temp.id); }
      t.messages + Keyed.Without([temp], MessageId, temp.id) + Keyed.Without([m], MessageId, temp.id);
      t.messages + [m];
    }
    KeysAppend(ms, [m], MessageId);
    assert MessageIds(ms + [m])[|ms|] == m.id;
    assert ConfirmTemp(a, temp.id, m) == Some(t.(messages := t.messages + [m]));
    // response first: the echo is replaced in place and the socket echo is then a duplicate
    EchoThenConfirm(t, temp, m);
    KeysAppend(t.messages, [m], MessageId);
    assert MessageIds(t.messages + [m])[|t.messages|] == m.id;
  }

  /** The corrected confirmation keeps message ids unique. */
  lemma ConfirmTempKeepsUnique(t: Transcript, tempId: string, m: Message)
    requires Keyed.Unique(MessageIds(t.messages))
    ensures Keyed.Unique(MessageIds(ConfirmTemp(Some(t), tempId, m).value.messages))
  {
    var ms := t.messages;
    if m.id != tempId && m.id in MessageIds(ms) {
      Keyed.WithoutKeepsUnique(ms, MessageId, tempId);
    } else {
      var r := Keyed.ReplaceAll(ms, MessageId, tempId, m);
      var ks, rs := MessageIds(ms), MessageIds(r);
      forall i, j | 0 <= i < j < |rs| ensures rs[i] != rs[j] {
        if ks[i] == tempId {
          assert ks[j] != tempId;
          assert rs[j] == ks[j];
        } else if ks[j] == tempId {
          assert rs[i] == ks[i];
        } else {
          assert rs[i] == ks[i] && rs[j] == ks[j];
        }
      }
    }
  }
}
