/**
 * The client-side store of the assistant widget: whether the panel is
 * open, the conversation shown, the loading flag and the last error.
 * Each server call is represented by its outcome, given as a parameter.
 */
module ChatStore {
  import opened Common
  import opened Schema

  /** A message as the widget keeps it. */
  datatype StoreMessage = StoreMessage(role: ChatRole, content: string, createdAt: Time)

  /** What `api.sendAIMessage` yields: the reply text, or a failure with its message if it has one. */
  datatype SendOutcome = Sent(reply: string) | SendFailed(message: Option<string>)

  const DefaultError: string := "Error sending message"

  /** `error.message || 'Error sending message'`. */
  function ErrorText(message: Option<string>): (r: string)
    ensures r != ""
    ensures Truthy(message) ==> r == message.value
    ensures !Truthy(message) ==> r == DefaultError
  {
    if Truthy(message) then message.value else DefaultError
  }

  class ChatStore {
    var messages: seq<StoreMessage>
    var isLoading: bool
    var isOpen: bool
    var error: Option<string>

    /** The initial state. */
    constructor ()
      ensures messages == [] && !isLoading && !isOpen && error.None?
    {
      messages := [];
      isLoading := false;
      isOpen := false;
      error := None;
    }

    /** `toggleChat`. */
    method Toggle()
      modifies this`isOpen
      ensures isOpen == !old(isOpen)
    {
      isOpen := !isOpen;
    }

    /** `openChat`. */
    method Open()
      modifies this`isOpen
      ensures isOpen
    {
      isOpen := true;
    }

    /** `closeChat`. */
    method Close()
      modifies this`isOpen
      ensures !isOpen
    {
      isOpen := false;
    }

    /** `loadHistory`: the fetched history replaces the messages; a failed fetch changes nothing. */
    method LoadHistory(fetched: Option<seq<StoreMessage>>)
      modifies this`messages
      ensures messages == if fetched.Some? then fetched.value else old(messages)
    {
      if fetched.Some? {
        messages := fetched.value;
      }
    }

    /** The synchronous start of `sendMessage`: the user's message is shown at once, loading starts and the error clears. */
    method BeginSend(content: string, now: Time)
      modifies this`messages, this`isLoading, this`error
      ensures messages == old(messages) + [StoreMessage(UserRole, content, now)]
      ensures isLoading && error.None?
    {
      messages := messages + [StoreMessage(UserRole, content, now)];
      isLoading := true;
      error := None;
    }

    /** The end of `sendMessage`: a reply is appended; a failure keeps the messages and records the error. */
    method CompleteSend(outcome: SendOutcome, now: Time)
      modifies this`messages, this`isLoading, this`error
      ensures !isLoading
      ensures outcome.Sent? ==>
        messages == old(messages) + [StoreMessage(AssistantRole, outcome.reply, now)] && error == old(error)
      ensures outcome.SendFailed? ==>
        messages == old(messages) && error == Some(ErrorText(outcome.message))
    {
      match outcome {
        case Sent(reply) =>
          messages := messages + [StoreMessage(AssistantRole, reply, now)];
        case SendFailed(message) =>
          error := Some(ErrorText(message));
      }
      isLoading := false;
    }

    /**
     * `sendMessage` when nothing else touches the store while the request
     * is under way: one user message, then at most one assistant message.
     */
    method SendMessage(content: string, outcome: SendOutcome, sentAt: Time, repliedAt: Time)
      modifies this`messages, this`isLoading, this`error
      ensures !isLoading
      ensures outcome.Sent? ==>
        && messages == old(messages) + [StoreMessage(UserRole, content, sentAt), StoreMessage(AssistantRole, outcome.reply, repliedAt)]
        && error.None?
      ensures outcome.SendFailed? ==>
        messages == old(messages) + [StoreMessage(UserRole, content, sentAt)] && error == Some(ErrorText(outcome.message))
    {
      BeginSend(content, sentAt);
      CompleteSend(outcome, repliedAt);
    }

    /** `clearHistory`: the messages go only when the server deleted them. */
    method ClearHistory(serverOk: bool)
      modifies this`messages
      ensures messages == if serverOk then [] else old(messages)
    {
      if serverOk {
        messages := [];
      }
    }
  }
}
