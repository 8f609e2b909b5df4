/**
 * The chat store: the chat list, the open transcript, the read markers and
 * the loading flags, with one method per store action. Each request-backed
 * action is split into a Begin method (the effect before the request) and
 * Complete methods (the effect of the response or of the failure).
 * Local actions are specified by `ChatReducer.Reduce`.
 */
module ChatStore {
  import opened Options
  import opened Entities
  import opened Paging
  import ChatReducer
  import Keyed

  /** Page size of the first chat page. */
  const InitialPageSize: nat := 5
  /** Page size of every further chat page. */
  const MorePageSize: nat := 20

  /** What an in-flight send remembers: the temporary id of its local echo. */
  datatype SendTicket = SendTicket(tempId: string)

  class Store {
    var chats: seq<Chat>
    var singleChat: Option<Transcript>
    var readMessages: map<string, string>
    var isChatsLoading: bool
    var isCreatingChat: bool
    var isSingleChatLoading: bool
    var isSendingMsg: bool
    var isLoadingMore: bool
    var hasMoreChats: bool

    /** The store's fields as one value. */
    function State(): ChatReducer.StoreState
      reads this
    {
      ChatReducer.StoreState(chats, singleChat, readMessages, isChatsLoading, isCreatingChat,
                             isSingleChatLoading, isSendingMsg, isLoadingMore, hasMoreChats)
    }

    /** The store as created: no chats, no open chat, no markers, more chats to load. */
    constructor ()
      ensures State() == ChatReducer.StoreState([], None, map[], false, false, false, false, false, true)
      ensures ChatReducer.WellFormed(State())
    {
      chats, singleChat, readMessages := [], None, map[];
      isChatsLoading, isCreatingChat, isSingleChatLoading := false, false, false;
      isSendingMsg, isLoadingMore, hasMoreChats := false, false, true;
    }

    // ------------------------------------------------------------ fetchChats

    /** fetchChats before the request: raises isChatsLoading and asks for the first page. */
    method BeginFetchChats() returns (q: PageQuery)
      modifies this
      ensures q == PageQuery(InitialPageSize, 0)
      ensures State() == old(State()).(isChatsLoading := true)
    {
      isChatsLoading := true;
      q := PageQuery(InitialPageSize, 0);
    }

    /** fetchChats on success: the page replaces the list. */
    method CompleteFetchChatsOk(page: Page<Chat>)
      modifies this
      ensures State() == old(State()).(chats := page.items, hasMoreChats := page.hasMore, isChatsLoading := false)
    {
      chats, hasMoreChats := page.items, page.hasMore;
      isChatsLoading := false;
    }

    /** fetchChats on failure: only the loading flag drops. */
    method CompleteFetchChatsFail()
      modifies this
      ensures State() == old(State()).(isChatsLoading := false)
    {
      isChatsLoading := false;
    }

    // ------------------------------------------------------------ fetchMoreChats

    /**
     * fetchMoreChats before the request: a no-op while a load-more is pending
     * or when no more chats exist; otherwise raises isLoadingMore and captures
     * the list, asking for the page at offset = its length.
     */
    method BeginFetchMoreChats() returns (req: Option<MoreRequest<Chat>>)
      modifies this
      ensures !MayLoadMore(old(isLoadingMore), old(hasMoreChats)) ==> req.None? && State() == old(State())
      ensures MayLoadMore(old(isLoadingMore), old(hasMoreChats)) ==>
        && req == Some(StartMore(old(chats), MorePageSize))
        && State() == old(State()).(isLoadingMore := true)
    {
      if isLoadingMore || !hasMoreChats {
        return None;
      }
      isLoadingMore := true;
      req := Some(StartMore(chats, MorePageSize));
    }

    /**
     * fetchMoreChats on success: the captured list followed by the page, whatever
     * the list became meanwhile; hasMoreChats from the response.
     */
    method CompleteFetchMoreChatsOk(req: MoreRequest<Chat>, page: Page<Chat>)
      modifies this
      ensures State() == old(State()).(chats := Extend(req, page), hasMoreChats := page.hasMore, isLoadingMore := false)
    {
      chats := Extend(req, page);
      hasMoreChats := page.hasMore;
      isLoadingMore := false;
    }

    /** fetchMoreChats on failure: only isLoadingMore is reset; the list is untouched. */
    method CompleteFetchMoreChatsFail()
      modifies this
      ensures State() == old(State()).(isLoadingMore := false)
    {
      isLoadingMore := false;
    }

    // ------------------------------------------------------------ createChat, fetchSingleChat

    method BeginCreateChat()
      modifies this
      ensures State() == old(State()).(isCreatingChat := true)
    {
      isCreatingChat := true;
    }

    /** createChat on success: the new chat is upserted to the front and returned. */
    method CompleteCreateChatOk(chat: Chat) returns (r: Option<Chat>)
      modifies this
      ensures r == Some(chat)
      ensures State() == ChatReducer.Reduce(old(State()), ChatReducer.AddNewChat(chat)).(isCreatingChat := false)
    {
      AddNewChat(chat);
      isCreatingChat := false;
      r := Some(chat);
    }

    /** createChat on failure: returns null and changes nothing else. */
    method CompleteCreateChatFail() returns (r: Option<Chat>)
      modifies this
      ensures r.None?
      ensures State() == old(State()).(isCreatingChat := false)
    {
      isCreatingChat := false;
      r := None;
    }

    method BeginFetchSingleChat()
      modifies this
      ensures State() == old(State()).(isSingleChatLoading := true)
    {
      isSingleChatLoading := true;
    }

    /** fetchSingleChat on success: the fetched chat and messages become the open transcript. */
    method CompleteFetchSingleChatOk(t: Transcript)
      modifies this
      ensures State() == old(State()).(singleChat := Some(t), isSingleChatLoading := false)
    {
      singleChat := Some(t);
      isSingleChatLoading := false;
    }

    /** fetchSingleChat on failure: the open transcript is left as it was. */
    method CompleteFetchSingleChatFail()
      modifies this
      ensures State() == old(State()).(isSingleChatLoading := false)
    {
      isSingleChatLoading := false;
    }

    // ------------------------------------------------------------ sendMessage

    /**
     * sendMessage up to the request: raises isSendingMsg (and leaves it raised
     * when there is no chat id or no user); otherwise builds the local echo
     * and appends it if the open chat is the target chat.
     */
    method BeginSend(p: ChatReducer.SendPayload, user: Option<User>, tempId: string, now: string)
      returns (ticket: Option<SendTicket>)
      requires singleChat.Some? ==> tempId !in ChatReducer.MessageIds(singleChat.value.messages)
      modifies this
      ensures !ChatReducer.CanSend(p, user) ==> ticket.None? && State() == old(State()).(isSendingMsg := true)
      ensures ChatReducer.CanSend(p, user) ==>
        && ticket == Some(SendTicket(tempId))
        && State() == old(State()).(
             isSendingMsg := true,
             singleChat := ChatReducer.EchoTemp(old(singleChat), p.chatId,
                                                ChatReducer.TempMessage(tempId, p, user.value, now)))
    {
      isSendingMsg := true;
      if p.chatId == "" || user.None? || user.value.id == "" {
        return None;
      }
      var temp := ChatReducer.TempMessage(tempId, p, user.value, now);
      singleChat := ChatReducer.EchoTemp(singleChat, p.chatId, temp);
      ticket := Some(SendTicket(tempId));
    }

    /**
     * sendMessage on success, as written: every entry carrying the temporary id
     * becomes the server's message, even when a socket echo of that message is
     * already in the transcript; isSendingMsg drops.
     */
    method CompleteSendOk(ticket: SendTicket, m: Message)
      modifies this
      ensures State() == old(State()).(singleChat := ChatReducer.ConfirmTempAsWritten(old(singleChat), ticket.tempId, m),
                                       isSendingMsg := false)
    {
      singleChat := ChatReducer.ConfirmTempAsWritten(singleChat, ticket.tempId, m);
      isSendingMsg := false;
    }

    /**
     * sendMessage on success, corrected: the echo gives way to the server's
     * message unless that message has already arrived over the socket, in which
     * case the echo is only dropped; isSendingMsg drops.
     */
    method CompleteSendOkCorrected(ticket: SendTicket, m: Message)
      modifies this
      ensures State() == old(State()).(singleChat := ChatReducer.ConfirmTemp(old(singleChat), ticket.tempId, m),
                                       isSendingMsg := false)
    {
      singleChat := ChatReducer.ConfirmTemp(singleChat, ticket.tempId, m);
      isSendingMsg := false;
    }

    /** sendMessage on failure: the echo is removed; isSendingMsg drops. */
    method CompleteSendFail(ticket: SendTicket)
      modifies this
      ensures State() == old(State()).(singleChat := ChatReducer.DropTemp(old(singleChat), ticket.tempId),
                                       isSendingMsg := false)
    {
      singleChat := ChatReducer.DropTemp(singleChat, ticket.tempId);
      isSendingMsg := false;
    }

    // ------------------------------------------------------------ local actions

    method AddNewChat(chat: Chat)
      modifies this
      ensures State() == ChatReducer.Reduce(old(State()), ChatReducer.AddNewChat(chat))
    {
      chats := ChatReducer.UpsertFront(chats, chat);
    }

    method UpdateChatLastMessage(chatId: string, lastMessage: Message)
      modifies this
      ensures State() == ChatReducer.Reduce(old(State()), ChatReducer.UpdateChatLastMessage(chatId, lastMessage))
    {
      chats := ChatReducer.PatchLastMessage(chats, chatId, lastMessage);
    }

    method UpdateChatInList(updatedChat: Chat)
      modifies this
      ensures State() == ChatReducer.Reduce(old(State()), ChatReducer.UpdateChatInList(updatedChat))
    {
      chats := Keyed.ReplaceAll(chats, ChatId, updatedChat.id, updatedChat);
      singleChat := ChatReducer.ReplaceActiveChat(singleChat, updatedChat);
    }

    method RemoveChatFromList(chatId: string)
      modifies this
      ensures State() == ChatReducer.Reduce(old(State()), ChatReducer.RemoveChatFromList(chatId))
    {
      chats := Keyed.Without(chats, ChatId, chatId);
      if ChatReducer.IsActive(singleChat, chatId) {
        singleChat := None;
      }
    }

    method AddNewMessage(chatId: string, message: Message)
      modifies this
      ensures State() == ChatReducer.Reduce(old(State()), ChatReducer.AddNewMessage(chatId, message))
    {
      singleChat := ChatReducer.AppendNew(singleChat, chatId, message);
    }

    method RemoveMessageFromChat(chatId: string, messageId: string)
      modifies this
      ensures State() == ChatReducer.Reduce(old(State()), ChatReducer.RemoveMessageFromChat(chatId, messageId))
    {
      singleChat := ChatReducer.RemoveMessage(singleChat, chatId, messageId);
    }

    method ClearMessagesInChat(chatId: string)
      modifies this
      ensures State() == ChatReducer.Reduce(old(State()), ChatReducer.ClearMessagesInChat(chatId))
    {
      singleChat := ChatReducer.ClearMessages(singleChat, chatId);
    }

    method UpdateMessageInChat(chatId: string, updatedMessage: Message)
      modifies this
      ensures State() == ChatReducer.Reduce(old(State()), ChatReducer.UpdateMessageInChat(chatId, updatedMessage))
    {
      singleChat := ChatReducer.UpdateMessage(singleChat, chatId, updatedMessage);
    }

    method MarkChatAsRead(chatId: string, messageId: string)
      modifies this
      ensures State() == ChatReducer.Reduce(old(State()), ChatReducer.MarkChatAsRead(chatId, messageId))
    {
      readMessages := readMessages[chatId := messageId];
    }

    /** isMessageUnread, read against the store's markers. */
    function IsMessageUnread(chatId: string, m: Option<Message>, userId: Option<string>): (r: bool)
      reads this
      ensures r ==> m.Some? && ChatReducer.SenderId(m.value) != userId
      ensures r ==> chatId !in readMessages || readMessages[chatId] != m.value.id
    {
      ChatReducer.Unread(readMessages, chatId, m, userId)
    }

    // ------------------------------------------------------------ request wrappers

    /**
     * updateGroupImage, updateGroupName, deleteGroupImage and deleteGroupName
     * on completion: the returned chat is written everywhere; a failure changes nothing.
     */
    method CompleteGroupEdit(response: Option<Chat>)
      modifies this
      ensures response.None? ==> State() == old(State())
      ensures response.Some? ==>
        State() == ChatReducer.Reduce(old(State()), ChatReducer.UpdateChatInList(response.value))
    {
      if response.Some? {
        UpdateChatInList(response.value);
      }
    }

    /** deleteChat on completion: the chat is removed only after the request succeeded. */
    method CompleteDeleteChat(chatId: string, succeeded: bool)
      modifies this
      ensures !succeeded ==> State() == old(State())
      ensures succeeded ==> State() == ChatReducer.Reduce(old(State()), ChatReducer.RemoveChatFromList(chatId))
    {
      if succeeded {
        RemoveChatFromList(chatId);
      }
    }

    /** deleteMessage on completion. */
    method CompleteDeleteMessage(messageId: string, chatId: string, succeeded: bool)
      modifies this
      ensures !succeeded ==> State() == old(State())
      ensures succeeded ==>
        State() == ChatReducer.Reduce(old(State()), ChatReducer.RemoveMessageFromChat(chatId, messageId))
    {
      if succeeded {
        RemoveMessageFromChat(chatId, messageId);
      }
    }

    /** clearChatMessages on completion. */
    method CompleteClearChatMessages(chatId: string, succeeded: bool)
      modifies this
      ensures !succeeded ==> State() == old(State())
      ensures succeeded ==> State() == ChatReducer.Reduce(old(State()), ChatReducer.ClearMessagesInChat(chatId))
    {
      if succeeded {
        ClearMessagesInChat(chatId);
      }
    }

    /** editMessage on completion: the edited message is applied to the chat it names. */
    method CompleteEditMessage(response: Option<Message>)
      modifies this
      ensures response.None? ==> State() == old(State())
      ensures response.Some? ==> State() == ChatReducer.Reduce(
        old(State()), ChatReducer.UpdateMessageInChat(response.value.chatId, response.value))
    {
      if response.Some? {
        UpdateMessageInChat(response.value.chatId, response.value);
      }
    }
  }

  /**
   * fetchMoreChats writes back the list it captured before the request: a chat
   * that arrives through chat:new while the page is loading, and is not in the
   * page, is gone afterwards.
   */
  method ChatArrivingDuringLoadMoreIsLost(store: Store, chat: Chat, page: Page<Chat>)
    requires MayLoadMore(store.isLoadingMore, store.hasMoreChats)
    requires chat.id !in ChatReducer.Ids(store.chats) && chat !in page.items
    modifies store
    ensures chat !in store.chats
    ensures store.chats == old(store.chats) + page.items
  {
    assert chat !in store.chats by {
      forall i | 0 <= i < |store.chats| ensures store.chats[i] != chat {
        assert ChatReducer.Ids(store.chats)[i] == store.chats[i].id;
      }
    }
    var req := store.BeginFetchMoreChats();
    store.AddNewChat(chat);
    store.CompleteFetchMoreChatsOk(req.value, page);
  }
}
