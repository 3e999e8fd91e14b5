/** src/tools/chat-store.ts: the chat store behind the HTTP routes. Its chats are named
    after their id and have no owner. */
module ToolsChatStore {
  import opened Wrappers
  import opened Messages
  import opened Database

  /** "New chat id: " followed by the id. */
  function ChatName(id: string): (name: string)
    ensures |name| == 13 + |id| && name[..13] == "New chat id: " && name[13..] == id
  {
    "New chat id: " + id
  }

  /** `createChat()`: inserts an empty chat without an owner under the freshly generated
      `id`, named after it, and returns the id. An insert that throws or that returns no
      row makes it throw and leaves the table unchanged. */
  method CreateChat(db: Db, id: string, now: int, fault: DbFault) returns (r: Result<string, StoreError>)
    requires db.Valid()
    modifies db
    ensures db.Valid()
    ensures db.users == old(db.users) && db.sessions == old(db.sessions) && db.accounts == old(db.accounts)
    ensures r.Success? <==> fault == Healthy && FindChat(old(db.chats), id).None?
    ensures r.Success? ==>
      r.value == id && db.chats == old(db.chats) + [ChatRow(id, ChatName(id), None, now, now, [])]
    ensures r.Failure? ==> db.chats == old(db.chats)
    ensures r.Failure? ==>
      r.error == (if fault == SilentNoop && FindChat(old(db.chats), id).None? then NoRowsInserted else QueryFailed)
  {
    if fault == Throws || FindChat(db.chats, id).Some? {
      return Failure(QueryFailed);
    }
    var inserted: seq<string> := [];
    if fault == Healthy {
      db.chats := db.chats + [ChatRow(id, ChatName(id), None, now, now, [])];
      inserted := [id];
    }
    if |inserted| > 0 {
      r := Success(id);
    } else {
      r := Failure(NoRowsInserted);
    }
  }

  /** `getChatMessages(id)`: the stored list, or [] for a missing chat. A failing
      database makes it throw. */
  method GetChatMessages(db: Db, id: string, fault: DbFault) returns (r: Result<seq<Message>, StoreError>)
    ensures r.Failure? <==> fault == Throws
    ensures r.Success? && (exists i :: 0 <= i < |db.chats| && db.chats[i].id == id) ==>
      r.value == FindChat(db.chats, id).value.messages
    ensures r.Success? && (forall i :: 0 <= i < |db.chats| ==> db.chats[i].id != id) ==> r.value == []
  {
    if fault == Throws {
      return Failure(QueryFailed);
    }
    var found := FindChat(db.chats, id);
    r := Success(if found.Some? then found.value.messages else []);
  }

  /** What `saveChatMessages` logs. */
  datatype SaveLog = Updated(count: nat) | NoRowsWarned | ErrorLogged

  /** `saveChatMessages({ id, messages })`: a full overwrite of the messages of the chat
      with this id; other fields and other rows keep their values. A missing id only
      warns; a failing database is logged and swallowed, so the call always completes. */
  method SaveChatMessages(db: Db, id: string, messages: seq<Message>, now: int, fault: DbFault)
    returns (log: SaveLog)
    requires db.Valid()
    modifies db
    ensures db.Valid()
    ensures db.users == old(db.users) && db.sessions == old(db.sessions) && db.accounts == old(db.accounts)
    ensures db.chats == if fault == Healthy then WithMessages(old(db.chats), id, messages, now) else old(db.chats)
    ensures log == if fault == Throws then ErrorLogged
                   else if fault == SilentNoop || FindChat(old(db.chats), id).None? then NoRowsWarned
                   else Updated(1)
  {
    if fault == Throws {
      return ErrorLogged;
    }
    var updated := 0;
    if fault == Healthy {
      SaveKeepsUniqueIds(db.chats, id, messages, now);
      var hit := FindChat(db.chats, id).Some?;
      db.chats := WithMessages(db.chats, id, messages, now);
      updated := if hit then 1 else 0;
    }
    log := if updated == 0 then NoRowsWarned else Updated(updated);
  }

  /** `getChat(id)`: the whole record for the id, or nothing. A failing database rejects
      the call. */
  method GetChat(db: Db, id: string, fault: DbFault) returns (r: Result<Option<ChatRow>, StoreError>)
    ensures r.Failure? <==> fault == Throws
    ensures r.Success? && r.value.Some? ==> r.value.value in db.chats && r.value.value.id == id
    ensures r.Success? ==> (r.value.None? <==> forall i :: 0 <= i < |db.chats| ==> db.chats[i].id != id)
  {
    if fault == Throws {
      return Failure(QueryFailed);
    }
    r := Success(FindChat(db.chats, id));
  }
}
