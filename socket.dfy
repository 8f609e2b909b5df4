/**
 * The subscription side of the realtime connection (the transport itself is
 * not part of this model): how many handlers are registered for each event.
 */
module Socket {

  /** The realtime events the chat components subscribe to. */
  datatype EventName =
    | MessageNew | MessageDeleted | MessageEdited | MessagesCleared
    | ChatNew | ChatUpdate | ChatGroupUpdated | ChatDeleted

  class Socket {
    /** One entry per registered handler. */
    var listeners: multiset<EventName>

    constructor ()
      ensures listeners == multiset{}
    {
      listeners := multiset{};
    }

    /** `socket.on(e, handler)` */
    method On(e: EventName)
      modifies this
      ensures listeners == old(listeners) + multiset{e}
    {
      listeners := listeners + multiset{e};
    }

    /** `socket.off(e, handler)` for a handler registered before. */
    method Off(e: EventName)
      modifies this
      ensures listeners == old(listeners) - multiset{e}
    {
      listeners := listeners - multiset{e};
    }
  }
}
