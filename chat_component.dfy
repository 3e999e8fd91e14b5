/** src/components/Chat.tsx: the client's chat state operations: deleting a message,
    shaping the request body, the client id prefix and the controls' gating. */
module ChatComponent {
  import opened Wrappers
  import opened Seqs
  import opened Messages
  import ChatRoute

  /** `handleDelete(id)`: `messages.filter((message) => message.id !== id)`. */
  function DeleteMessage(messages: seq<Message>, id: string): (r: seq<Message>)
    ensures forall j :: 0 <= j < |r| ==> r[j].id != id && r[j] in messages
    ensures forall j :: 0 <= j < |messages| && messages[j].id != id ==> messages[j] in r
  {
    Filter(messages, (m: Message) => m.id != id)
  }

  /** Deleting works piecewise, so what is kept keeps its relative order. */
  lemma DeleteKeepsOrder(a: seq<Message>, b: seq<Message>, id: string)
    ensures DeleteMessage(a + b, id) == DeleteMessage(a, id) + DeleteMessage(b, id)
  {
    FilterConcat(a, b, (m: Message) => m.id != id);
  }

  /** Deleting an id nobody has leaves the list as it was. */
  lemma DeleteAbsentIsNoop(messages: seq<Message>, id: string)
    requires forall j :: 0 <= j < |messages| ==> messages[j].id != id
    ensures DeleteMessage(messages, id) == messages
  {
    FilterKeepsAll(messages, (m: Message) => m.id != id);
  }

  /** Deleting twice is deleting once. */
  lemma DeleteIdempotent(messages: seq<Message>, id: string)
    ensures DeleteMessage(DeleteMessage(messages, id), id) == DeleteMessage(messages, id)
  {
    FilterIdempotent(messages, (m: Message) => m.id != id);
  }

  predicate UniqueIds(messages: seq<Message>) {
    forall i, j :: 0 <= i < j < |messages| ==> messages[i].id != messages[j].id
  }

  /** With unique ids, deleting an id that is present removes exactly one message. */
  lemma {:induction false} DeleteUniqueRemovesOne(messages: seq<Message>, id: string)
    requires UniqueIds(messages)
    requires exists j :: 0 <= j < |messages| && messages[j].id == id
    ensures |DeleteMessage(messages, id)| == |messages| - 1
  {
    var rest := messages[1..];
    if messages[0].id == id {
      assert forall j :: 0 <= j < |rest| ==> rest[j].id != id by {
        forall j | 0 <= j < |rest| ensures rest[j].id != id {
          assert rest[j] == messages[j + 1];
        }
      }
      DeleteAbsentIsNoop(rest, id);
      assert messages == [messages[0]] + rest;
      DeleteKeepsOrder([messages[0]], rest, id);
      assert DeleteMessage([messages[0]], id) == [];
    } else {
      var j :| 0 <= j < |messages| && messages[j].id == id;
      assert rest[j - 1].id == id;
      assert UniqueIds(rest) by {
        forall a, b | 0 <= a < b < |rest| ensures rest[a].id != rest[b].id {
          assert rest[a] == messages[a + 1] && rest[b] == messages[b + 1];
        }
      }
      DeleteUniqueRemovesOne(rest, id);
      assert messages == [messages[0]] + rest;
      DeleteKeepsOrder([messages[0]], rest, id);
      assert DeleteMessage([messages[0]], id) == [messages[0]];
    }
  }

  /** With a duplicated id every copy goes, not just one. */
  lemma DeleteRemovesEveryCopy(m: Message, n: Message)
    requires m.id == n.id
    ensures DeleteMessage([m, n], m.id) == []
  {
    assert [m, n] == [m] + [n];
    DeleteKeepsOrder([m], [n], m.id);
  }

  /** `experimental_prepareRequestBody`: the last message (undefined for an empty list)
      and the chat id. */
  datatype RequestBody = RequestBody(message: Option<Message>, id: Option<string>)

  function PrepareRequestBody(messages: seq<Message>, id: Option<string>): (b: RequestBody)
    ensures b.id == id
    ensures messages == [] <==> b.message.None?
    ensures messages != [] ==> b.message == Some(messages[|messages| - 1])
  {
    RequestBody(if messages == [] then None else Some(messages[|messages| - 1]), id)
  }

  /** Appending a message and preparing the body sends exactly that message. */
  lemma BodyCarriesNewMessage(history: seq<Message>, m: Message, id: Option<string>)
    ensures PrepareRequestBody(history + [m], id) == RequestBody(Some(m), id)
  {
  }

  /** The prefix of the ids the client gives its own messages; same size as the
      server's. */
  const ClientIdPrefix := "msgc"
  const ClientIdSize: nat := 16

  /** Client and server ids never collide: the prefixes have the same length and differ
      in their last character, whatever follows them. */
  lemma IdNamespacesAreDisjoint(sep1: string, r1: string, sep2: string, r2: string)
    ensures ChatRoute.GeneratedId(ClientIdPrefix, sep1, r1) != ChatRoute.GeneratedId(ChatRoute.AssistantIdPrefix, sep2, r2)
    ensures |ClientIdPrefix| == |ChatRoute.AssistantIdPrefix| && ClientIdSize == ChatRoute.IdSize
  {
    var c := ChatRoute.GeneratedId(ClientIdPrefix, sep1, r1);
    var s := ChatRoute.GeneratedId(ChatRoute.AssistantIdPrefix, sep2, r2);
    assert c[3] == c[..4][3] == 'c';
    assert s[3] == s[..4][3] == 's';
  }

  /** `useChat`'s status. */
  datatype Status = Submitted | Streaming | Ready | Error

  /** The reload button is disabled unless the chat is ready or has failed, that is
      while a request is submitted or streaming. */
  function ReloadEnabled(status: Status): (enabled: bool)
    ensures enabled <==> !(status == Submitted || status == Streaming)
  {
    status == Ready || status == Error
  }

  /** The input is disabled while an error is present. */
  function InputDisabled(error: Option<string>): (disabled: bool)
    ensures disabled <==> error != None
  {
    error.Some?
  }
}
