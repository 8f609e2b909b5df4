/**
 * The chat sidebar: the search filter, the infinite-scroll trigger and the
 * routing of the chat-level realtime events into the store.
 */
module ChatList {
  import opened Options
  import opened Entities
  import opened Text
  import opened Paging
  import ChatReducer
  import ChatStore
  import Socket

  /** Some participant other than the current user has a name containing `q` (already lower-cased). */
  function SomeOtherNameMatches(ps: seq<User>, q: string, userId: Option<string>): (b: bool)
    ensures b <==> exists i :: 0 <= i < |ps| && Some(ps[i].id) != userId && Contains(Lower(ps[i].name), q)
  {
    if ps == [] then false
    else if Some(ps[0].id) != userId && Contains(Lower(ps[0].name), q) then true
    else
      var b := SomeOtherNameMatches(ps[1..], q, userId);
      assert forall i :: 0 < i < |ps| ==> ps[i] == ps[1..][i - 1];
      b
  }

  /**
   * A chat passes the search box when its group name contains the query, or some
   * participant other than the current user has a name that does, ignoring case.
   * An absent group name never matches; a present one, even empty, is searched.
   */
  predicate MatchesQuery(chat: Chat, query: string, userId: Option<string>) {
    var q := Lower(query);
    || (chat.groupName.Some? && Contains(Lower(chat.groupName.value), q))
    || SomeOtherNameMatches(chat.participants, q, userId)
  }

  /** filteredChats: the chats passing the search box, in list order. */
  function FilteredChats(chats: seq<Chat>, query: string, userId: Option<string>): (r: seq<Chat>)
    ensures |r| <= |chats|
    ensures forall i :: 0 <= i < |r| ==> r[i] in chats && MatchesQuery(r[i], query, userId)
    ensures forall i :: 0 <= i < |chats| && MatchesQuery(chats[i], query, userId) ==> chats[i] in r
  {
    if chats == [] then []
    else
      var rest := FilteredChats(chats[1..], query, userId);
      assert forall i :: 0 < i < |chats| ==> chats[i] == chats[1..][i - 1];
      if MatchesQuery(chats[0], query, userId) then [chats[0]] + rest else rest
  }

  /** A single chat is kept exactly when it matches. */
  lemma FilteredSingle(c: Chat, query: string, userId: Option<string>)
    ensures FilteredChats([c], query, userId) == (if MatchesQuery(c, query, userId) then [c] else [])
  {
    assert [c][1..] == [];
  }

  /**
   * Filtering distributes over concatenation; with FilteredSingle this pins the
   * result down to the matching chats in their original order, duplicates kept.
   */
  lemma {:induction false} FilteredAppend(a: seq<Chat>, b: seq<Chat>, query: string, userId: Option<string>)
    ensures FilteredChats(a + b, query, userId) == FilteredChats(a, query, userId) + FilteredChats(b, query, userId)
  {
    if a == [] {
      assert a + b == b;
    } else {
      assert (a + b)[0] == a[0];
      assert (a + b)[1..] == a[1..] + b;
      FilteredAppend(a[1..], b, query, userId);
    }
  }

  /**
   * With an empty query a chat is shown exactly when it has a group name or a
   * participant other than the current user.
   */
  lemma EmptyQueryMatches(chat: Chat, userId: Option<string>)
    ensures MatchesQuery(chat, "", userId) <==>
      chat.groupName.Some? || exists i :: 0 <= i < |chat.participants| && Some(chat.participants[i].id) != userId
  {
    forall s: string ensures Contains(s, "") {
      assert OccursAt(s, "", 0);
    }
  }

  /** The scroll trigger fires fetchMoreChats: no search, sentinel visible, more to load, nothing loading. */
  predicate ScrollTriggerFires(query: string, intersecting: bool, hasMoreChats: bool, isLoadingMore: bool, isChatsLoading: bool) {
    query == "" && intersecting && hasMoreChats && !isLoadingMore && !isChatsLoading
  }

  /**
   * The sentinel became visible: when the trigger fires, fetchMoreChats is
   * called and always issues its request; otherwise nothing happens.
   */
  method OnSentinelVisible(store: ChatStore.Store, query: string, intersecting: bool) returns (req: Option<MoreRequest<Chat>>)
    modifies store
    ensures ScrollTriggerFires(query, intersecting, old(store.hasMoreChats), old(store.isLoadingMore), old(store.isChatsLoading)) ==>
      && req == Some(StartMore(old(store.chats), ChatStore.MorePageSize))
      && store.State() == old(store.State()).(isLoadingMore := true)
    ensures !ScrollTriggerFires(query, intersecting, old(store.hasMoreChats), old(store.isLoadingMore), old(store.isChatsLoading)) ==>
      req.None? && store.State() == old(store.State())
  {
    if ScrollTriggerFires(query, intersecting, store.hasMoreChats, store.isLoadingMore, store.isChatsLoading) {
      req := store.BeginFetchMoreChats();
    } else {
      req := None;
    }
  }

  /** The chat-level events the sidebar handles, with their payloads. */
  datatype ListEvent =
    | ChatNew(chat: Chat)
    | ChatUpdate(chatId: string, lastMessage: Message)
    | ChatGroupUpdated(updated: Chat)
    | ChatDeleted(chatId: string)

  /** The store action each event maps to; none is filtered. */
  function Route(e: ListEvent): (a: ChatReducer.Action)
    ensures e.ChatNew? <==> a.AddNewChat?
    ensures e.ChatUpdate? <==> a.UpdateChatLastMessage?
    ensures e.ChatGroupUpdated? <==> a.UpdateChatInList?
    ensures e.ChatDeleted? <==> a.RemoveChatFromList?
    ensures e.ChatNew? ==> a.chat == e.chat
    ensures e.ChatUpdate? ==> a.chatId == e.chatId && a.lastMessage == e.lastMessage
    ensures e.ChatGroupUpdated? ==> a.updatedChat == e.updated
    ensures e.ChatDeleted? ==> a.chatId == e.chatId
  {
    match e
    case ChatNew(c) => ChatReducer.AddNewChat(c)
    case ChatUpdate(id, m) => ChatReducer.UpdateChatLastMessage(id, m)
    case ChatGroupUpdated(c) => ChatReducer.UpdateChatInList(c)
    case ChatDeleted(id) => ChatReducer.RemoveChatFromList(id)
  }

  /** Chat events are safe to redeliver and keep chat and message ids unique. */
  lemma ListEventIsIdempotent(s: ChatReducer.StoreState, e: ListEvent)
    requires ChatReducer.WellFormed(s)
    ensures ChatReducer.Reduce(ChatReducer.Reduce(s, Route(e)), Route(e)) == ChatReducer.Reduce(s, Route(e))
    ensures ChatReducer.WellFormed(ChatReducer.Reduce(s, Route(e)))
  {
    ChatReducer.ReduceIdempotent(s, Route(e));
    ChatReducer.ReducePreservesWellFormed(s, Route(e));
  }

  /** Invokes the store action for one event, as the registered handler does. */
  method Deliver(store: ChatStore.Store, e: ListEvent)
    modifies store
    ensures store.State() == ChatReducer.Reduce(old(store.State()), Route(e))
  {
    match e
    case ChatNew(c) => store.AddNewChat(c);
    case ChatUpdate(id, m) => store.UpdateChatLastMessage(id, m);
    case ChatGroupUpdated(c) => store.UpdateChatInList(c);
    case ChatDeleted(id) => store.RemoveChatFromList(id);
  }

  /** The events the sidebar listens to. */
  function ListEvents(): multiset<Socket.EventName> {
    multiset{Socket.ChatNew, Socket.ChatUpdate, Socket.ChatGroupUpdated, Socket.ChatDeleted}
  }

  /** The four effects: each registers one handler when a socket exists. */
  method Subscribe(socket: Socket.Socket?) returns (registered: bool)
    modifies socket
    ensures registered <==> socket != null
    ensures registered ==> socket.listeners == old(socket.listeners) + ListEvents()
  {
    if socket == null {
      return false;
    }
    socket.On(Socket.ChatNew);
    socket.On(Socket.ChatUpdate);
    socket.On(Socket.ChatGroupUpdated);
    socket.On(Socket.ChatDeleted);
    registered := true;
  }

  /** The four cleanups: each removes the handler its effect registered. */
  method Unsubscribe(socket: Socket.Socket)
    modifies socket
    ensures socket.listeners == old(socket.listeners) - ListEvents()
  {
    socket.Off(Socket.ChatNew);
    socket.Off(Socket.ChatUpdate);
    socket.Off(Socket.ChatGroupUpdated);
    socket.Off(Socket.ChatDeleted);
  }

  /**
   * The effects re-run (the socket or an action changed): cleanup then
   * subscribe again leaves exactly one handler per chat event.
   */
  method Resubscribe(socket: Socket.Socket)
    requires ListEvents() <= socket.listeners
    modifies socket
    ensures socket.listeners == old(socket.listeners)
  {
    Unsubscribe(socket);
    var _ := Subscribe(socket);
  }
}
