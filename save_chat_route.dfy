/** src/app/api/save-chat/route.ts: the endpoint that overwrites a chat's transcript. */
module SaveChatRoute {
  import opened Wrappers
  import opened Messages
  import opened Database
  import ToolsChatStore

  /** The JSON body: either field may be missing. */
  datatype SaveRequest = SaveRequest(id: Option<string>, messages: Option<seq<Message>>)

  datatype Response = Response(status: nat, body: string)

  const MissingFields := "Chat ID and messages are required"
  const SavedBody := "{\"success\":true}"
  const SaveFailed := "Failed to save chat messages"

  /** `!id || !messages`: a missing or empty id, or missing messages. An empty list is
      truthy and passes. */
  predicate MissingIdOrMessages(req: SaveRequest) {
    req.id.None? || req.id.value == "" || req.messages.None?
  }

  /** `POST`: `body` is None when the request body is not JSON, which the `catch` turns
      into a 500. A missing field is a 400. Otherwise the transcript is overwritten and
      the answer is 200, whatever the store did: `saveChatMessages` swallows its own
      failures and an unknown id. */
  method Post(db: Db, body: Option<SaveRequest>, now: int, fault: DbFault) returns (resp: Response)
    requires db.Valid()
    modifies db
    ensures db.Valid()
    ensures db.users == old(db.users) && db.sessions == old(db.sessions) && db.accounts == old(db.accounts)
    ensures body.None? ==> resp == Response(500, SaveFailed)
    ensures body.Some? && MissingIdOrMessages(body.value) ==> resp == Response(400, MissingFields)
    ensures body.Some? && !MissingIdOrMessages(body.value) ==> resp == Response(200, SavedBody)
    ensures resp.status != 200 ==> db.chats == old(db.chats)
    ensures resp.status == 200 ==>
      db.chats == if fault == Healthy
                  then WithMessages(old(db.chats), body.value.id.value, body.value.messages.value, now)
                  else old(db.chats)
  {
    if body.None? {
      return Response(500, SaveFailed);
    }
    var req := body.value;
    if req.id.None? || req.id.value == "" || req.messages.None? {
      return Response(400, MissingFields);
    }
    var _ := ToolsChatStore.SaveChatMessages(db, req.id.value, req.messages.value, now, fault);
    resp := Response(200, SavedBody);
  }

  /** The status alone, as a decision on the parsed body. */
  function Status(body: Option<SaveRequest>): (status: nat)
    ensures status == 500 <==> body.None?
    ensures status == 400 <==> body.Some? && MissingIdOrMessages(body.value)
    ensures status == 200 <==> body.Some? && !MissingIdOrMessages(body.value)
  {
    if body.None? then 500 else if MissingIdOrMessages(body.value) then 400 else 200
  }

  /** An empty transcript is accepted: it clears the chat. */
  lemma EmptyTranscriptIsSaved(id: string)
    requires id != ""
    ensures Status(Some(SaveRequest(Some(id), Some([])))) == 200
  {
  }
}
