/** The global message list of useMessageStore.ts: one `messages` field that
    its three actions overwrite. */
module MessageStore {
  import opened JsValues

  /** The `Message` record of the client's API layer. */
  datatype Message = Message(
    id: string,
    from: string,
    to: string,
    content: string,
    timestamp: string,
    group: Option<string>,
    system: Option<bool>)

  class Store {
    var messages: seq<Message>

    /** The store starts with an empty list. */
    constructor ()
      ensures messages == []
    {
      messages := [];
    }

    /** `setMessages(msgs)`: the list becomes exactly `msgs`, whatever it was. */
    method SetMessages(msgs: seq<Message>)
      modifies this
      ensures messages == msgs
    {
      messages := msgs;
    }

    /** `addMessage(msg)`: `msg` goes in front and every earlier message
        follows it, in its earlier order. */
    method AddMessage(msg: Message)
      modifies this
      ensures |messages| == |old(messages)| + 1
      ensures messages[0] == msg
      ensures messages[1..] == old(messages)
    {
      messages := [msg] + messages;
    }

    /** `clearMessages()`: the list is empty afterwards from any state, so a
        second call changes nothing. */
    method ClearMessages()
      modifies this
      ensures messages == []
    {
      messages := [];
    }
  }
}
