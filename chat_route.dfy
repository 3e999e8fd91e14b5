/** src/app/api/chat/route.ts: the chat endpoint. It reads the new message and the chat
    id, loads the stored transcript, and hands both to the model as a stream; errors
    inside the stream are turned into text, errors before it into a 500. */
module ChatRoute {
  import opened Wrappers
  import opened Messages
  import opened Database
  import ToolsChatStore

  /** The runtime kinds `getErrorMessage` distinguishes. `Other` carries the value's
      `JSON.stringify` text. */
  datatype ThrownValue = Null | Undefined | Str(s: string) | ErrorObj(message: string) | Other(json: string)

  /** `getErrorMessage`: a missing error is "unknown error", a string is itself, an
      `Error` is its message and anything else is its JSON serialisation. */
  function ErrorMessage(e: ThrownValue): (m: string)
    ensures (e.Null? || e.Undefined?) ==> m == "unknown error"
    ensures e.Str? ==> m == e.s
    ensures e.ErrorObj? ==> m == e.message
    ensures e.Other? ==> m == e.json
  {
    match e
    case Null => "unknown error"
    case Undefined => "unknown error"
    case Str(s) => s
    case ErrorObj(message) => message
    case Other(json) => json
  }

  /** The prefix and the random length of the ids the server gives assistant messages. */
  const AssistantIdPrefix := "msgs"
  const IdSize: nat := 16

  /** An id from `createIdGenerator({ prefix, size })`: the prefix, the library's
      separator and `size` random characters (the random part is a parameter). */
  function GeneratedId(prefix: string, separator: string, random: string): (id: string)
    ensures |id| == |prefix| + |separator| + |random|
    ensures id[..|prefix|] == prefix
  {
    prefix + separator + random
  }

  /** The model every request is sent to. */
  const Model := "gpt-4o"

  /** The JSON body of `POST /api/chat`. `model` stands for any other field a client
      might send; the route never reads it. */
  datatype ChatRequest = ChatRequest(message: Message, id: string, model: Option<string>)

  /** The stream the route sets up, or the error response of its `catch`. */
  datatype ChatResponse =
    | Stream(model: string, messages: seq<Message>, idPrefix: string, idSize: nat)
    | ErrorResponse(status: nat, body: string)

  /** `JSON.stringify({ error: 'Internal server error' })`. */
  const ServerErrorBody := "{\"error\":\"Internal server error\"}"

  /** The stream `Post` sets up for a parsed body on a working database: the model is
      always the same, the transcript is the stored one (or [] for an unknown chat)
      combined with the new message. */
  function StreamFor(chats: seq<ChatRow>, body: ChatRequest, combine: (seq<Message>, Message) -> seq<Message>)
    : (resp: ChatResponse)
    ensures resp.Stream? && resp.model == Model && resp.idPrefix == AssistantIdPrefix && resp.idSize == 16
    ensures FindChat(chats, body.id).None? ==> resp.messages == combine([], body.message)
    ensures FindChat(chats, body.id).Some? ==>
      resp.messages == combine(FindChat(chats, body.id).value.messages, body.message)
  {
    var stored := FindChat(chats, body.id);
    Stream(Model, combine(if stored.Some? then stored.value.messages else [], body.message),
           AssistantIdPrefix, IdSize)
  }
  /** `POST`: `body` is None when the request body is not JSON. The stored transcript
      (`[]` for an unknown chat) and the new message are combined by the AI SDK's
      `appendClientMessage`, here the uninterpreted `combine`. Any failure before the
      stream starts is a 500 with the fixed body. */
  method Post(db: Db, body: Option<ChatRequest>, fault: DbFault, combine: (seq<Message>, Message) -> seq<Message>)
    returns (resp: ChatResponse)
    ensures (body.None? || fault == Throws) <==> resp.ErrorResponse?
    ensures resp.ErrorResponse? ==> resp == ErrorResponse(500, ServerErrorBody)
    ensures resp.Stream? ==> resp == StreamFor(db.chats, body.value, combine)
  {
    if body.None? {
      return ErrorResponse(500, ServerErrorBody);
    }
    var previous := ToolsChatStore.GetChatMessages(db, body.value.id, fault);
    if previous.Failure? {
      return ErrorResponse(500, ServerErrorBody);
    }
    // The check for a null transcript cannot fire: the store answers [] for a missing chat.
    var toSend := combine(previous.value, body.value.message);
    resp := Stream(Model, toSend, AssistantIdPrefix, IdSize);
  }

  /** The route reads nothing of the body but the message and the id: two requests that
      differ elsewhere get the same response. */
  lemma OnlyMessageAndIdMatter(chats: seq<ChatRow>, a: ChatRequest, b: ChatRequest,
                               combine: (seq<Message>, Message) -> seq<Message>)
    requires a.message == b.message && a.id == b.id
    ensures StreamFor(chats, a, combine) == StreamFor(chats, b, combine)
    ensures StreamFor(chats, a, combine).model == Model
  {
  }
}
