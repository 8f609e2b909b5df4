/**
 * The open-chat view: routing of the message events into the store, guarded
 * by the view's own chat id, the handler registration of its effects, and
 * the timestamp-separator rule.
 */
module ChatBody {
  import opened Options
  import opened Entities
  import ChatReducer
  import ChatStore
  import Socket

  /** The message events the view handles, with their payloads. */
  datatype BodyEvent =
    | MessageNew(message: Message)
    | MessageDeleted(chatId: string, messageId: string)
    | MessageEdited(chatId: string, edited: Message)
    | MessagesCleared(chatId: string)

  /**
   * The store action a view showing `viewChatId` performs for an event:
   * message:new always appends under the view's chat id (not the message's);
   * the other three act only when the event names the view's chat.
   */
  function Route(viewChatId: string, e: BodyEvent): (a: Option<ChatReducer.Action>)
    ensures e.MessageNew? ==> a == Some(ChatReducer.AddNewMessage(viewChatId, e.message))
    ensures !e.MessageNew? ==> (a.Some? <==> e.chatId == viewChatId)
    ensures e.MessageDeleted? && a.Some? ==> a.value == ChatReducer.RemoveMessageFromChat(viewChatId, e.messageId)
    ensures e.MessageEdited? && a.Some? ==> a.value == ChatReducer.UpdateMessageInChat(viewChatId, e.edited)
    ensures e.MessagesCleared? && a.Some? ==> a.value == ChatReducer.ClearMessagesInChat(viewChatId)
  {
    match e
    case MessageNew(m) => Some(ChatReducer.AddNewMessage(viewChatId, m))
    case MessageDeleted(c, id) => if c == viewChatId then Some(ChatReducer.RemoveMessageFromChat(viewChatId, id)) else None
    case MessageEdited(c, m) => if c == viewChatId then Some(ChatReducer.UpdateMessageInChat(viewChatId, m)) else None
    case MessagesCleared(c) => if c == viewChatId then Some(ChatReducer.ClearMessagesInChat(viewChatId)) else None
  }

  /** The store after the view handled one event. */
  function Step(s: ChatReducer.StoreState, viewChatId: string, e: BodyEvent): ChatReducer.StoreState {
    match Route(viewChatId, e)
    case None => s
    case Some(a) => ChatReducer.Reduce(s, a)
  }

  /** A message event delivered twice leaves the store as delivering it once does. */
  lemma DuplicateEventIsHarmless(s: ChatReducer.StoreState, viewChatId: string, e: BodyEvent)
    ensures Step(Step(s, viewChatId, e), viewChatId, e) == Step(s, viewChatId, e)
  {
    if Route(viewChatId, e).Some? {
      ChatReducer.ReduceIdempotent(s, Route(viewChatId, e).value);
    }
  }

  /** Message events never touch the chat list, the read markers or the flags, and keep ids unique. */
  lemma EventTouchesOnlyTranscript(s: ChatReducer.StoreState, viewChatId: string, e: BodyEvent)
    requires ChatReducer.WellFormed(s)
    ensures Step(s, viewChatId, e).(singleChat := s.singleChat) == s
    ensures ChatReducer.WellFormed(Step(s, viewChatId, e))
  {
    if Route(viewChatId, e).Some? {
      ChatReducer.ReducePreservesWellFormed(s, Route(viewChatId, e).value);
    }
  }

  /** Invokes the store action for one event, as the registered handler does. */
  method Deliver(store: ChatStore.Store, viewChatId: string, e: BodyEvent)
    modifies store
    ensures store.State() == Step(old(store.State()), viewChatId, e)
  {
    match e
    case MessageNew(m) =>
      store.AddNewMessage(viewChatId, m);
    case MessageDeleted(c, id) =>
      if c == viewChatId {
        store.RemoveMessageFromChat(viewChatId, id);
      }
    case MessageEdited(c, m) =>
      if c == viewChatId {
        store.UpdateMessageInChat(viewChatId, m);
      }
    case MessagesCleared(c) =>
      if c == viewChatId {
        store.ClearMessagesInChat(viewChatId);
      }
  }

  /** The events the view listens to. */
  function BodyEvents(): multiset<Socket.EventName> {
    multiset{Socket.MessageNew, Socket.MessageDeleted, Socket.MessageEdited, Socket.MessagesCleared}
  }

  /** The view's four effects: each registers one handler, and only with a socket and a chat id. */
  method Subscribe(socket: Socket.Socket?, viewChatId: string) returns (registered: bool)
    modifies socket
    ensures registered <==> socket != null && viewChatId != ""
    ensures registered ==> socket.listeners == old(socket.listeners) + BodyEvents()
    ensures !registered && socket != null ==> socket.listeners == old(socket.listeners)
  {
    if socket == null || viewChatId == "" {
      return false;
    }
    socket.On(Socket.MessageNew);
    socket.On(Socket.MessageDeleted);
    socket.On(Socket.MessageEdited);
    socket.On(Socket.MessagesCleared);
    registered := true;
  }

  /** The four cleanups: each unregisters the handler its effect registered. */
  method Unsubscribe(socket: Socket.Socket)
    requires BodyEvents() <= socket.listeners
    modifies socket
    ensures socket.listeners + BodyEvents() == old(socket.listeners)
  {
    socket.Off(Socket.MessageNew);
    socket.Off(Socket.MessageDeleted);
    socket.Off(Socket.MessageEdited);
    socket.Off(Socket.MessagesCleared);
  }

  /** date-fns differenceInMinutes: whole minutes between two instants given in milliseconds, truncated toward zero. */
  function DifferenceInMinutes(laterMs: int, earlierMs: int): int {
    var d := laterMs - earlierMs;
    if d >= 0 then d / 60000 else -((-d) / 60000)
  }

  /**
   * shouldShowTimestamp: the first message always gets a separator; a later one
   * when more than ten whole minutes passed, i.e. at least eleven minutes.
   */
  function ShouldShowTimestamp(currentMs: int, previousMs: Option<int>): (show: bool)
    ensures previousMs.None? ==> show
    ensures previousMs.Some? ==> (show <==> currentMs - previousMs.value >= 11 * 60000)
  {
    if previousMs.None? then true
    else DifferenceInMinutes(currentMs, previousMs.value) > 10
  }
}
