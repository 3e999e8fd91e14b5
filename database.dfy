/** The relational store as in-memory tables. Each table is a sequence of rows in
    storage order; `Db.Valid` states the primary-key constraints. Queries that the
    store modules and routers issue are the functions below. */
module Database {
  import opened Wrappers
  import opened Seqs
  import opened Messages

  /** A row of the chats table. `userId` is absent for chats created without an owner. */
  datatype ChatRow = ChatRow(id: string, name: string, userId: Option<string>,
                             createdAt: int, updatedAt: int, messages: seq<Message>)

  datatype UserRow = UserRow(id: string, name: string, email: string, emailVerified: bool,
                             createdAt: int, updatedAt: int)

  datatype SessionRow = SessionRow(id: string, userId: string)

  datatype AccountRow = AccountRow(id: string, userId: string)

  /** How the database behaves for one call: normally, by throwing, or by silently
      affecting no row (a write whose `returning` list comes back empty). */
  datatype DbFault = Healthy | Throws | SilentNoop

  /** Why a store operation threw. */
  datatype StoreError = QueryFailed | NoRowsInserted

  predicate UniqueChatIds(rows: seq<ChatRow>) {
    forall i, j :: 0 <= i < j < |rows| ==> rows[i].id != rows[j].id
  }

  predicate UniqueUserIds(rows: seq<UserRow>) {
    forall i, j :: 0 <= i < j < |rows| ==> rows[i].id != rows[j].id
  }

  /** `findFirst({ where: eq(chats.id, id) })`. */
  function FindChat(rows: seq<ChatRow>, id: string): (r: Option<ChatRow>)
    ensures r.Some? ==> r.value in rows && r.value.id == id
    ensures r.None? <==> forall j :: 0 <= j < |rows| ==> rows[j].id != id
  {
    if rows == [] then None
    else if rows[0].id == id then Some(rows[0])
    else FindChat(rows[1..], id)
  }

  /** With unique ids, the row found for an id is the one row carrying it. */
  lemma {:induction false} FindChatUnique(rows: seq<ChatRow>, i: nat)
    requires UniqueChatIds(rows) && i < |rows|
    ensures FindChat(rows, rows[i].id) == Some(rows[i])
  {
    if i > 0 {
      FindChatUnique(rows[1..], i - 1);
    }
  }

  /** The `messages` column of the row with this id, or [] when there is no such row. */
  function MessagesOf(rows: seq<ChatRow>, id: string): seq<Message> {
    match FindChat(rows, id)
    case None => []
    case Some(c) => c.messages
  }

  /** `update(chats).set({ messages }).where(eq(chats.id, id))`; the `updatedAt` column
      is stamped by the schema's `$onUpdate` hook. */
  function WithMessages(rows: seq<ChatRow>, id: string, msgs: seq<Message>, now: int): (r: seq<ChatRow>)
    ensures |r| == |rows|
    ensures forall i :: 0 <= i < |rows| ==>
      r[i] == if rows[i].id == id then rows[i].(messages := msgs, updatedAt := now) else rows[i]
  {
    if rows == [] then []
    else
      [if rows[0].id == id then rows[0].(messages := msgs, updatedAt := now) else rows[0]]
      + WithMessages(rows[1..], id, msgs, now)
  }

  /** Saving to an id that no row carries leaves the table as it was. */
  lemma SaveUnknownIdIsNoop(rows: seq<ChatRow>, id: string, msgs: seq<Message>, now: int)
    requires FindChat(rows, id).None?
    ensures WithMessages(rows, id, msgs, now) == rows
  {
  }

  /** Two saves in a row leave what the second one wrote: the overwrite is wholesale
      (last writer wins), and saving the same list twice equals saving it once. */
  lemma SaveTwiceKeepsLast(rows: seq<ChatRow>, id: string, l1: seq<Message>, t1: int,
                           l2: seq<Message>, t2: int)
    ensures WithMessages(WithMessages(rows, id, l1, t1), id, l2, t2) == WithMessages(rows, id, l2, t2)
  {
  }

  /** Ids, names, owners and creation times are untouched by a save. */
  lemma SaveKeepsKeys(rows: seq<ChatRow>, id: string, msgs: seq<Message>, now: int)
    ensures var r := WithMessages(rows, id, msgs, now);
      forall i :: 0 <= i < |rows| ==>
        r[i].id == rows[i].id && r[i].name == rows[i].name &&
        r[i].userId == rows[i].userId && r[i].createdAt == rows[i].createdAt
  {
  }

  /** A save keeps the table's primary key unique. */
  lemma SaveKeepsUniqueIds(rows: seq<ChatRow>, id: string, msgs: seq<Message>, now: int)
    requires UniqueChatIds(rows)
    ensures UniqueChatIds(WithMessages(rows, id, msgs, now))
  {
  }

  /** Reading a chat back after saving to it yields the row with exactly the saved
      list. */
  lemma {:induction false} ReadAfterSave(rows: seq<ChatRow>, id: string, msgs: seq<Message>, now: int)
    ensures FindChat(WithMessages(rows, id, msgs, now), id) ==
      match FindChat(rows, id)
      case None => None
      case Some(c) => Some(c.(messages := msgs, updatedAt := now))
    ensures FindChat(rows, id).Some? ==> MessagesOf(WithMessages(rows, id, msgs, now), id) == msgs
  {
    if rows != [] {
      assert WithMessages(rows, id, msgs, now)[1..] == WithMessages(rows[1..], id, msgs, now);
      ReadAfterSave(rows[1..], id, msgs, now);
    }
  }

  /** A save to one chat does not change what any other chat reads as. */
  lemma {:induction false} SaveKeepsOtherChats(rows: seq<ChatRow>, id: string, msgs: seq<Message>, now: int, other: string)
    requires other != id
    ensures FindChat(WithMessages(rows, id, msgs, now), other) == FindChat(rows, other)
  {
    if rows != [] {
      assert WithMessages(rows, id, msgs, now)[1..] == WithMessages(rows[1..], id, msgs, now);
      SaveKeepsOtherChats(rows[1..], id, msgs, now, other);
    }
  }

  /** `findFirst({ where: eq(user.id, id) })`. */
  function FindUser(rows: seq<UserRow>, id: string): (r: Option<UserRow>)
    ensures r.Some? ==> r.value in rows && r.value.id == id
    ensures r.None? <==> forall j :: 0 <= j < |rows| ==> rows[j].id != id
  {
    if rows == [] then None
    else if rows[0].id == id then Some(rows[0])
    else FindUser(rows[1..], id)
  }

  /** `findFirst({ where: eq(user.email, email) })`. */
  function FindUserByEmail(rows: seq<UserRow>, email: string): (r: Option<UserRow>)
    ensures r.Some? ==> r.value in rows && r.value.email == email
    ensures r.None? <==> forall j :: 0 <= j < |rows| ==> rows[j].email != email
  {
    if rows == [] then None
    else if rows[0].email == email then Some(rows[0])
    else FindUserByEmail(rows[1..], email)
  }

  /** The database: the four tables the core reads and writes. */
  class Db {
    var chats: seq<ChatRow>
    var users: seq<UserRow>
    var sessions: seq<SessionRow>
    var accounts: seq<AccountRow>

    /** The primary keys of chats and users are unique; sessions and accounts are not
        constrained. */
    ghost predicate Valid()
      reads this
    {
      UniqueChatIds(chats) && UniqueUserIds(users)
    }

    constructor ()
      ensures Valid()
      ensures chats == [] && users == [] && sessions == [] && accounts == []
    {
      chats, users, sessions, accounts := [], [], [], [];
    }
  }
}
