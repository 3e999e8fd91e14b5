/** src/lib/chat-store.ts: extracting the text of a message, and the chat store used by
    the tRPC chat router (chats created here have an owner). */
module LibChatStore {
  import opened Wrappers
  import opened Seqs
  import opened Messages
  import opened Database

  predicate IsTextPart(p: Part) {
    p.kind == "text"
  }

  /** What `content.find(...)` accepts: a string, or an object that has a `text` key. */
  predicate IsTextualItem(item: ContentItem) {
    item.StringItem? || (item.ObjectItem? && item.text.Some?)
  }

  /** The text of a message, tried in a fixed order: a non-empty string `content`; the
      `text` of the first part whose type is "text"; the first string or text-bearing
      object of an array `content`; otherwise "". An absent message gives "". */
  function LastMessageContent(m: Option<Message>): (r: string)
    ensures m.None? ==> r == ""
    ensures (m.Some? && m.value.parts.None? && !m.value.content.ArrayContent? &&
             !(m.value.content.StringContent? && m.value.content.s != "")) ==> r == ""
  {
    match m
    case None => ""
    case Some(msg) =>
      if msg.content.StringContent? && msg.content.s != "" then msg.content.s
      else
        var textPart := if msg.parts.Some? then Find(msg.parts.value, IsTextPart) else None;
        if textPart.Some? && textPart.value.text.Some? then textPart.value.text.value
        else if msg.content.ArrayContent? then
          var item: Option<ContentItem> := Find(msg.content.items, IsTextualItem);
          match item
          case Some(StringItem(s)) => s
          case Some(ObjectItem(Some(t))) => t
          case _ => ""
        else ""
  }

  /** A non-empty string `content` is returned as it is. */
  lemma StringContentWins(msg: Message)
    requires msg.content.StringContent? && msg.content.s != ""
    ensures LastMessageContent(Some(msg)) == msg.content.s
  {
  }

  /** Otherwise the first part of type "text" decides, when it carries a text. */
  lemma FirstTextPartWins(msg: Message, j: nat, t: string)
    requires !(msg.content.StringContent? && msg.content.s != "")
    requires msg.parts.Some? && j < |msg.parts.value|
    requires msg.parts.value[j].kind == "text" && msg.parts.value[j].text == Some(t)
    requires forall k :: 0 <= k < j ==> msg.parts.value[k].kind != "text"
    ensures LastMessageContent(Some(msg)) == t
  {
    var i := FirstIndex(msg.parts.value, IsTextPart);
    assert i == Some(j);
  }

  /** Failing both, an array `content` gives its first string item, or the text of its
      first object item that has one, whichever comes first. */
  lemma FirstTextualItemWins(msg: Message, j: nat)
    requires !(msg.content.StringContent? && msg.content.s != "")
    requires msg.parts.None? || Find(msg.parts.value, IsTextPart).None? ||
             Find(msg.parts.value, IsTextPart).value.text.None?
    requires msg.content.ArrayContent? && j < |msg.content.items|
    requires IsTextualItem(msg.content.items[j])
    requires forall k :: 0 <= k < j ==> !IsTextualItem(msg.content.items[k])
    ensures LastMessageContent(Some(msg)) ==
      match msg.content.items[j]
      case StringItem(s) => s
      case ObjectItem(t) => t.value
      case OtherItem => ""
  {
    var i := FirstIndex(msg.content.items, IsTextualItem);
    assert i == Some(j);
  }

  /** A non-empty result always comes from one of the three places, so a falsy message
      or a message with no match anywhere gives "". */
  lemma {:induction false} ResultHasASource(m: Option<Message>)
    ensures var r := LastMessageContent(m);
      r != "" ==>
        m.Some? &&
        (m.value.content == StringContent(r) ||
         (m.value.parts.Some? && Part("text", Some(r)) in m.value.parts.value) ||
         (m.value.content.ArrayContent? &&
          (StringItem(r) in m.value.content.items || ObjectItem(Some(r)) in m.value.content.items)))
  {
    if m.Some? && !(m.value.content.StringContent? && m.value.content.s != "") {
      var msg := m.value;
      if msg.parts.Some? {
        var tp := Find(msg.parts.value, IsTextPart);
        if tp.Some? && tp.value.text.Some? {
          assert tp.value == Part("text", tp.value.text);
        }
      }
    }
  }

  /** The name every chat created by this store starts with. */
  const NewChatName: string := "New conversation"

  /** `createChat({ userId })`: inserts an empty chat owned by `userId` under the
      freshly generated `id` and returns that id. An insert that throws (a failing
      database, or `id` already taken) or that returns no row makes it throw and leaves
      the table unchanged. */
  method CreateChat(db: Db, userId: string, id: string, now: int, fault: DbFault)
    returns (r: Result<string, StoreError>)
    requires db.Valid()
    modifies db
    ensures db.Valid()
    ensures db.users == old(db.users) && db.sessions == old(db.sessions) && db.accounts == old(db.accounts)
    ensures r.Success? <==> fault == Healthy && FindChat(old(db.chats), id).None?
    ensures r.Success? ==>
      r.value == id && db.chats == old(db.chats) + [ChatRow(id, NewChatName, Some(userId), now, now, [])]
    ensures r.Failure? ==> db.chats == old(db.chats)
    ensures r.Failure? ==>
      r.error == (if fault == SilentNoop && FindChat(old(db.chats), id).None? then NoRowsInserted else QueryFailed)
  {
    if fault == Throws || FindChat(db.chats, id).Some? {
      return Failure(QueryFailed);
    }
    var inserted: seq<string> := [];
    if fault == Healthy {
      db.chats := db.chats + [ChatRow(id, NewChatName, Some(userId), now, now, [])];
      inserted := [id];
    }
    if |inserted| > 0 {
      r := Success(id);
    } else {
      r := Failure(NoRowsInserted);
    }
  }

  /** `getChatMessages(id)`: the stored list of the chat with this id, or [] when there
      is no such chat. A failing database makes it throw. */
  method GetChatMessages(db: Db, id: string, fault: DbFault) returns (r: Result<seq<Message>, StoreError>)
    ensures r.Failure? <==> fault == Throws
    ensures r.Success? && (exists i :: 0 <= i < |db.chats| && db.chats[i].id == id) ==>
      r.value == FindChat(db.chats, id).value.messages
    ensures r.Success? && (forall i :: 0 <= i < |db.chats| ==> db.chats[i].id != id) ==> r.value == []
  {
    if fault == Throws {
      return Failure(QueryFailed);
    }
    var found := FindChat(db.chats, id);
    r := Success(if found.Some? then found.value.messages else []);
  }

  /** What `saveChatMessages` logs. */
  datatype SaveLog = Updated | NoRowsWarned | ErrorLogged

  /** `saveChatMessages({ id, messages })`: overwrites the whole message list of the
      chat with this id. An unknown id only logs a warning, and a failing database is
      logged and swallowed: the call always completes. */
  method SaveChatMessages(db: Db, id: string, messages: seq<Message>, now: int, fault: DbFault)
    returns (log: SaveLog)
    requires db.Valid()
    modifies db
    ensures db.Valid()
    ensures db.users == old(db.users) && db.sessions == old(db.sessions) && db.accounts == old(db.accounts)
    ensures db.chats == if fault == Healthy then WithMessages(old(db.chats), id, messages, now) else old(db.chats)
    ensures log == if fault == Throws then ErrorLogged
                   else if fault == SilentNoop || FindChat(old(db.chats), id).None? then NoRowsWarned
                   else Updated
  {
    if fault == Throws {
      return ErrorLogged;
    }
    var updated := 0;
    if fault == Healthy {
      SaveKeepsUniqueIds(db.chats, id, messages, now);
      var hit := FindChat(db.chats, id).Some?;
      db.chats := WithMessages(db.chats, id, messages, now);
      updated := if hit then 1 else 0;
    }
    log := if updated == 0 then NoRowsWarned else Updated;
  }

  /** `getChat(id)`: the whole record of the chat with this id, if any. The query is not
      wrapped in a `try`, so a failing database rejects the call. */
  method GetChat(db: Db, id: string, fault: DbFault) returns (r: Result<Option<ChatRow>, StoreError>)
    ensures r.Failure? <==> fault == Throws
    ensures r.Success? && r.value.Some? ==> r.value.value in db.chats && r.value.value.id == id
    ensures r.Success? ==> (r.value.None? <==> forall i :: 0 <= i < |db.chats| ==> db.chats[i].id != id)
  {
    if fault == Throws {
      return Failure(QueryFailed);
    }
    r := Success(FindChat(db.chats, id));
  }
}
