/** src/server/api/routers/chat.ts: the conversation directory. Every procedure acts
    for the authenticated caller. */
module ChatRouter {
  import opened Wrappers
  import opened Seqs
  import opened Database
  import opened Trpc
  import LibChatStore

  predicate OwnedBy(uid: string, c: ChatRow) {
    c.userId == Some(uid)
  }

  /** Ordered by `createdAt`, newest first. */
  predicate NewestFirst(s: seq<ChatRow>) {
    forall i, j :: 0 <= i < j < |s| ==> s[i].createdAt >= s[j].createdAt
  }

  function InsertNewestFirst(c: ChatRow, s: seq<ChatRow>): (r: seq<ChatRow>)
    requires NewestFirst(s)
    ensures NewestFirst(r)
    ensures forall i :: 0 <= i < |r| ==> r[i] == c || r[i] in s
  {
    if s == [] || s[0].createdAt <= c.createdAt then [c] + s
    else
      assert s == [s[0]] + s[1..];
      [s[0]] + InsertNewestFirst(c, s[1..])
  }

  /** Inserting adds the one row and loses none. */
  lemma {:induction false} InsertNewestFirstPermutes(c: ChatRow, s: seq<ChatRow>)
    requires NewestFirst(s)
    ensures multiset(InsertNewestFirst(c, s)) == multiset(s) + multiset{c}
  {
    if s != [] && s[0].createdAt > c.createdAt {
      assert s == [s[0]] + s[1..];
      InsertNewestFirstPermutes(c, s[1..]);
    }
  }

  /** `orderBy: [desc(chats.createdAt)]`: the same rows, newest first. */
  function SortNewestFirst(s: seq<ChatRow>): (r: seq<ChatRow>)
    ensures NewestFirst(r)
    ensures multiset(r) == multiset(s)
  {
    if s == [] then []
    else
      assert s == [s[0]] + s[1..];
      InsertNewestFirstPermutes(s[0], SortNewestFirst(s[1..]));
      InsertNewestFirst(s[0], SortNewestFirst(s[1..]))
  }

  /** `list`: the caller's chats, newest first. The query sits outside any `try`, so a
      query that throws (`throws`) reaches the client as INTERNAL_SERVER_ERROR. */
  function List(rows: seq<ChatRow>, caller: SessionUser, throws: bool): (r: Result<seq<ChatRow>, TrpcCode>)
    ensures r.Failure? <==> throws
    ensures r.Failure? ==> r.error == InternalServerError
    ensures r.Success? ==> NewestFirst(r.value)
    ensures r.Success? ==> multiset(r.value) == multiset(Filter(rows, c => OwnedBy(caller.id, c)))
  {
    if throws then Failure(InternalServerError)
    else Success(SortNewestFirst(Filter(rows, c => OwnedBy(caller.id, c))))
  }

  /** The listing holds exactly the chats whose owner is the caller. */
  lemma ListIsCallersChats(rows: seq<ChatRow>, caller: SessionUser, c: ChatRow)
    ensures List(rows, caller, false).Success?
    ensures c in List(rows, caller, false).value <==> c in rows && c.userId == Some(caller.id)
  {
    var f := Filter(rows, c => OwnedBy(caller.id, c));
    assert c in List(rows, caller, false).value <==> c in multiset(f);
    if c in rows && c.userId == Some(caller.id) {
      var j :| 0 <= j < |rows| && rows[j] == c;
      assert rows[j] in f;
    }
  }

  /** `get({ chatId })`: the chat when the caller owns it. A missing chat and someone
      else's chat are both rejected with UNAUTHORIZED; a query that throws reaches the
      client as INTERNAL_SERVER_ERROR. */
  function Get(rows: seq<ChatRow>, caller: SessionUser, chatId: string, throws: bool): (r: Result<ChatRow, TrpcCode>)
    ensures r.Success? ==> r.value in rows && r.value.id == chatId && r.value.userId == Some(caller.id)
    ensures throws ==> r == Failure(InternalServerError)
    ensures !throws && r.Failure? ==> r.error == Unauthorized
  {
    if throws then Failure(InternalServerError)
    else match FindChat(rows, chatId)
    case None => Failure(Unauthorized)
    case Some(c) => if c.userId != Some(caller.id) then Failure(Unauthorized) else Success(c)
  }

  /** With unique ids, `get` succeeds exactly for a chat the caller owns, and then
      returns its record unchanged. */
  lemma GetSucceedsIffOwned(rows: seq<ChatRow>, caller: SessionUser, i: nat)
    requires UniqueChatIds(rows) && i < |rows|
    ensures Get(rows, caller, rows[i].id, false) ==
      if rows[i].userId == Some(caller.id) then Success(rows[i]) else Failure(Unauthorized)
  {
    FindChatUnique(rows, i);
  }

  /** A caller who does not own a chat learns nothing from `get`: the answer is the one
      a missing chat gets. */
  lemma ForeignChatLooksMissing(rows: seq<ChatRow>, caller: SessionUser, chatId: string, missing: string)
    requires forall i :: 0 <= i < |rows| && rows[i].id == chatId ==> rows[i].userId != Some(caller.id)
    requires FindChat(rows, missing).None?
    ensures Get(rows, caller, chatId, false) == Get(rows, caller, missing, false) == Failure(Unauthorized)
  {
  }

  /** Appending a row with a fresh id makes it the row found for that id. */
  lemma {:induction false} FindAppended(rows: seq<ChatRow>, c: ChatRow)
    requires FindChat(rows, c.id).None?
    ensures FindChat(rows + [c], c.id) == Some(c)
  {
    if rows != [] {
      assert (rows + [c])[1..] == rows[1..] + [c];
      FindAppended(rows[1..], c);
    }
  }

  /** `create`: a new chat owned by the caller; returns its id. A store failure reaches
      the client as INTERNAL_SERVER_ERROR. */
  method Create(db: Db, caller: SessionUser, freshId: string, now: int, fault: DbFault)
    returns (r: Result<string, TrpcCode>)
    requires db.Valid()
    modifies db
    ensures db.Valid()
    ensures db.users == old(db.users) && db.sessions == old(db.sessions) && db.accounts == old(db.accounts)
    ensures r.Success? <==> fault == Healthy && FindChat(old(db.chats), freshId).None?
    ensures r.Success? ==>
      r.value == freshId &&
      db.chats == old(db.chats) + [ChatRow(freshId, LibChatStore.NewChatName, Some(caller.id), now, now, [])]
    ensures r.Success? ==> Get(db.chats, caller, freshId, false).Success?
    ensures r.Failure? ==> r.error == InternalServerError && db.chats == old(db.chats)
  {
    var created := LibChatStore.CreateChat(db, caller.id, freshId, now, fault);
    if created.Failure? {
      return Failure(InternalServerError);
    }
    FindAppended(old(db.chats), ChatRow(freshId, LibChatStore.NewChatName, Some(caller.id), now, now, []));
    r := Success(created.value);
  }
}
