/** src/server/api/routers/profile.ts: reading the caller's profile, changing its email
    and name, and deleting the account with everything it owns. */
module ProfileRouter {
  import opened Wrappers
  import opened Seqs
  import opened Strings
  import opened Database
  import opened Trpc

  /** `profile.get`: the caller's user row; NOT_FOUND when it is missing. The query sits
      outside any `try`, so one that throws reaches the client as INTERNAL_SERVER_ERROR. */
  function GetProfile(users: seq<UserRow>, caller: SessionUser, throws: bool): (r: Result<UserRow, TrpcCode>)
    ensures r.Success? ==> r.value in users && r.value.id == caller.id
    ensures throws ==> r == Failure(InternalServerError)
    ensures !throws ==> (r.Failure? <==> forall j :: 0 <= j < |users| ==> users[j].id != caller.id)
    ensures !throws && r.Failure? ==> r.error == NotFound
  {
    if throws then Failure(InternalServerError)
    else match FindUser(users, caller.id)
    case None => Failure(NotFound)
    case Some(u) => Success(u)
  }

  /** What the body of a mutation can throw: a `TRPCError` with its code, or anything
      else (a failing database). */
  datatype Thrown = Trpc(code: TrpcCode) | Foreign

  /** The `catch` of `updateEmail` and `updateName`: a `TRPCError` is rethrown as it is,
      anything else becomes INTERNAL_SERVER_ERROR. */
  function Caught(e: Thrown): (code: TrpcCode)
    ensures e.Trpc? ==> code == e.code
    ensures e.Foreign? ==> code == InternalServerError
  {
    match e
    case Trpc(c) => c
    case Foreign => InternalServerError
  }

  /** The `updateEmail` input schema: length checks on the raw string, then lower-case,
      then trim. A failing check is a BAD_REQUEST. */
  function ParseEmailInput(raw: string): (r: Result<string, TrpcCode>)
    ensures r.Failure? <==> |raw| < 1 || |raw| > 320
    ensures r.Failure? ==> r.error == BadRequest
    ensures r.Success? ==> r.value == Trim(ToLower(raw))
  {
    if |raw| < 1 || |raw| > 320 then Failure(BadRequest) else Success(Trim(ToLower(raw)))
  }

  /** The `updateName` input schema: length checks on the raw string, then trim. */
  function ParseNameInput(raw: string): (r: Result<string, TrpcCode>)
    ensures r.Failure? <==> |raw| < 1 || |raw| > 100
    ensures r.Failure? ==> r.error == BadRequest
    ensures r.Success? ==> r.value == Trim(raw)
  {
    if |raw| < 1 || |raw| > 100 then Failure(BadRequest) else Success(Trim(raw))
  }

  /** The length check runs before the trim, so a name of spaces passes the schema and
      arrives as the empty name. */
  lemma BlankNamePassesSchema()
    ensures ParseNameInput("   ") == Success("")
  {
    assert TrimStart("   ") == "";
  }

  predicate UniqueEmails(users: seq<UserRow>) {
    forall i, j :: 0 <= i < j < |users| ==> users[i].email != users[j].email
  }

  /** `update(user).set({ email, emailVerified: false, updatedAt }).where(eq(user.id, id))`. */
  function SetEmail(users: seq<UserRow>, id: string, email: string, now: int): (r: seq<UserRow>)
    ensures |r| == |users|
    ensures forall i :: 0 <= i < |users| ==>
      r[i] == if users[i].id == id then users[i].(email := email, emailVerified := false, updatedAt := now) else users[i]
  {
    if users == [] then []
    else
      [if users[0].id == id then users[0].(email := email, emailVerified := false, updatedAt := now) else users[0]]
      + SetEmail(users[1..], id, email, now)
  }

  /** `update(user).set({ name, updatedAt }).where(eq(user.id, id))`. */
  function SetName(users: seq<UserRow>, id: string, name: string, now: int): (r: seq<UserRow>)
    ensures |r| == |users|
    ensures forall i :: 0 <= i < |users| ==>
      r[i] == if users[i].id == id then users[i].(name := name, updatedAt := now) else users[i]
  {
    if users == [] then []
    else
      [if users[0].id == id then users[0].(name := name, updatedAt := now) else users[0]]
      + SetName(users[1..], id, name, now)
  }

  /** Updates keep every row's id, so they keep the primary key unique. */
  lemma SetEmailKeepsIds(users: seq<UserRow>, id: string, email: string, now: int)
    requires UniqueUserIds(users)
    ensures UniqueUserIds(SetEmail(users, id, email, now))
  {
    var r := SetEmail(users, id, email, now);
    assert forall i :: 0 <= i < |users| ==> r[i].id == users[i].id;
  }

  lemma SetNameKeepsIds(users: seq<UserRow>, id: string, name: string, now: int)
    requires UniqueUserIds(users)
    ensures UniqueUserIds(SetName(users, id, name, now))
  {
    var r := SetName(users, id, name, now);
    assert forall i :: 0 <= i < |users| ==> r[i].id == users[i].id;
  }

  /** With unique emails, the lookup by email finds another user exactly when some other
      user holds that email: a match on the caller's own row is no conflict. */
  lemma ConflictIffHeldByOther(users: seq<UserRow>, email: string, callerId: string)
    requires UniqueEmails(users)
    ensures (FindUserByEmail(users, email).Some? && FindUserByEmail(users, email).value.id != callerId)
      <==> exists j :: 0 <= j < |users| && users[j].email == email && users[j].id != callerId
  {
    var f := FindUserByEmail(users, email);
    if exists j :: 0 <= j < |users| && users[j].email == email && users[j].id != callerId {
      var j :| 0 <= j < |users| && users[j].email == email && users[j].id != callerId;
      assert f.Some?;
      var k :| 0 <= k < |users| && users[k] == f.value;
      assert k == j;
    }
  }

  /** An email change that passed the conflict check keeps emails unique. */
  lemma SetEmailKeepsUniqueEmails(users: seq<UserRow>, id: string, email: string, now: int)
    requires UniqueUserIds(users) && UniqueEmails(users)
    requires forall j :: 0 <= j < |users| && users[j].email == email ==> users[j].id == id
    ensures UniqueEmails(SetEmail(users, id, email, now))
  {
  }

  /** The row returned by an update on the caller's id. */
  lemma {:induction false} SetEmailFindsUpdatedRow(users: seq<UserRow>, id: string, email: string, now: int, u: UserRow)
    requires FindUser(users, id) == Some(u)
    ensures FindUser(SetEmail(users, id, email, now), id) == Some(u.(email := email, emailVerified := false, updatedAt := now))
  {
    if users[0].id != id {
      assert SetEmail(users, id, email, now)[1..] == SetEmail(users[1..], id, email, now);
      SetEmailFindsUpdatedRow(users[1..], id, email, now, u);
    }
  }

  lemma {:induction false} SetNameFindsUpdatedRow(users: seq<UserRow>, id: string, name: string, now: int, u: UserRow)
    requires FindUser(users, id) == Some(u)
    ensures FindUser(SetName(users, id, name, now), id) == Some(u.(name := name, updatedAt := now))
  {
    if users[0].id != id {
      assert SetName(users, id, name, now)[1..] == SetName(users[1..], id, name, now);
      SetNameFindsUpdatedRow(users[1..], id, name, now, u);
    }
  }

  /** `updateEmail({ email })`: the schema first; a malformed input is a BAD_REQUEST and
      the resolver never runs. */
  method UpdateEmail(db: Db, caller: SessionUser, raw: string, now: int, fault: DbFault)
    returns (r: Result<UserRow, TrpcCode>)
    requires db.Valid()
    modifies db
    ensures db.Valid()
    ensures db.chats == old(db.chats) && db.sessions == old(db.sessions) && db.accounts == old(db.accounts)
    ensures r.Failure? ==> db.users == old(db.users)
    ensures |raw| < 1 || |raw| > 320 ==> r == Failure(BadRequest)
    ensures 1 <= |raw| <= 320 ==> r == ChangeEmailOutcome(old(db.users), caller, Trim(ToLower(raw)), now, fault)
    ensures r.Success? ==> db.users == SetEmail(old(db.users), caller.id, r.value.email, now)
  {
    var input := ParseEmailInput(raw);
    if input.Failure? {
      return Failure(input.error);
    }
    r := ChangeEmail(db, caller, input.value, now, fault);
  }

  /** The outcome of the `updateEmail` resolver on a parsed email, in the order the checks
      run: the current email again is a BAD_REQUEST; a failing database an
      INTERNAL_SERVER_ERROR; an email another user holds a CONFLICT; an update that
      touches no row NOT_FOUND. Otherwise the caller's row with the new email and its
      verification reset. */
  function ChangeEmailOutcome(users: seq<UserRow>, caller: SessionUser, email: string, now: int, fault: DbFault)
    : (r: Result<UserRow, TrpcCode>)
    ensures email == caller.email ==> r == Failure(BadRequest)
    ensures email != caller.email && fault == Throws ==> r == Failure(InternalServerError)
    ensures (email != caller.email && fault != Throws &&
             FindUserByEmail(users, email).Some? && FindUserByEmail(users, email).value.id != caller.id) ==>
      r == Failure(Conflict)
    ensures (email != caller.email && fault != Throws &&
             !(FindUserByEmail(users, email).Some? && FindUserByEmail(users, email).value.id != caller.id) &&
             (fault == SilentNoop || FindUser(users, caller.id).None?)) ==>
      r == Failure(NotFound)
    ensures (email != caller.email && fault == Healthy &&
             !(FindUserByEmail(users, email).Some? && FindUserByEmail(users, email).value.id != caller.id) &&
             FindUser(users, caller.id).Some?) ==>
      r.Success?
    ensures r.Success? ==>
      FindUser(users, caller.id).Some? &&
      r.value == FindUser(users, caller.id).value.(email := email, emailVerified := false, updatedAt := now)
  {
    var holder := FindUserByEmail(users, email);
    var own := FindUser(users, caller.id);
    if email == caller.email then Failure(BadRequest)
    else if fault == Throws then Failure(InternalServerError)
    else if holder.Some? && holder.value.id != caller.id then Failure(Conflict)
    else if fault == SilentNoop || own.None? then Failure(NotFound)
    else Success(own.value.(email := email, emailVerified := false, updatedAt := now))
  }

  /** With unique emails, the resolver's conflict is exactly another user holding the
      email, and it succeeds exactly when the email is new, nobody else holds it, the
      caller's row exists and the database works. */
  lemma ChangeEmailConflictIffHeldByOther(users: seq<UserRow>, caller: SessionUser, email: string, now: int, fault: DbFault)
    requires UniqueEmails(users)
    ensures email != caller.email && fault != Throws ==>
      (ChangeEmailOutcome(users, caller, email, now, fault) == Failure(Conflict) <==>
        exists j :: 0 <= j < |users| && users[j].email == email && users[j].id != caller.id)
    ensures ChangeEmailOutcome(users, caller, email, now, fault).Success? <==>
      email != caller.email && fault == Healthy && FindUser(users, caller.id).Some? &&
      forall j :: 0 <= j < |users| && users[j].email == email ==> users[j].id == caller.id
  {
    ConflictIffHeldByOther(users, email, caller.id);
  }

  /** The resolver of `updateEmail` on the parsed email. Every rejection leaves the table
      as it was; a success changes the caller's row and only it, and returns that row. */
  method ChangeEmail(db: Db, caller: SessionUser, email: string, now: int, fault: DbFault)
    returns (r: Result<UserRow, TrpcCode>)
    requires db.Valid()
    modifies db
    ensures db.Valid()
    ensures db.chats == old(db.chats) && db.sessions == old(db.sessions) && db.accounts == old(db.accounts)
    ensures r == ChangeEmailOutcome(old(db.users), caller, email, now, fault)
    ensures r.Failure? ==> db.users == old(db.users)
    ensures r.Success? ==>
      db.users == SetEmail(old(db.users), caller.id, email, now) &&
      FindUser(db.users, caller.id) == Some(r.value)
  {
    var users := db.users;
    if email == caller.email {
      return Failure(Caught(Trpc(BadRequest)));
    }
    if fault == Throws {
      return Failure(Caught(Foreign));
    }
    var existing := FindUserByEmail(users, email);
    if existing.Some? && existing.value.id != caller.id {
      return Failure(Caught(Trpc(Conflict)));
    }
    var own := FindUser(users, caller.id);
    if fault == SilentNoop || own.None? {
      return Failure(Caught(Trpc(NotFound)));
    }
    var updated := SetEmail(users, caller.id, email, now);
    SetEmailKeepsIds(users, caller.id, email, now);
    SetEmailFindsUpdatedRow(users, caller.id, email, now, own.value);
    db.users := updated;
    // `returning()` yields the updated row.
    r := Success(own.value.(email := email, emailVerified := false, updatedAt := now));
  }

  /** `updateName({ name })`: the current name again is a BAD_REQUEST; otherwise only the
      caller's name changes and the row is returned. An update that touches no row is
      NOT_FOUND and a failing database INTERNAL_SERVER_ERROR. */
  method UpdateName(db: Db, caller: SessionUser, raw: string, now: int, fault: DbFault)
    returns (r: Result<UserRow, TrpcCode>)
    requires db.Valid()
    modifies db
    ensures db.Valid()
    ensures db.chats == old(db.chats) && db.sessions == old(db.sessions) && db.accounts == old(db.accounts)
    ensures r.Failure? ==> db.users == old(db.users)
    ensures r.Success? ==> FindUser(db.users, caller.id) == Some(r.value)
    ensures |raw| < 1 || |raw| > 100 ==> r == Failure(BadRequest)
    ensures 1 <= |raw| <= 100 ==>
      var name := Trim(raw);
      var own := FindUser(old(db.users), caller.id);
      if name == caller.name then r == Failure(BadRequest)
      else if fault == Throws then r == Failure(InternalServerError)
      else if fault == SilentNoop || own.None? then r == Failure(NotFound)
      else r == Success(own.value.(name := name, updatedAt := now)) &&
           db.users == SetName(old(db.users), caller.id, name, now)
  {
    var input := ParseNameInput(raw);
    if input.Failure? {
      return Failure(input.error);
    }
    var name := input.value;
    var users := db.users;
    if name == caller.name {
      return Failure(Caught(Trpc(BadRequest)));
    }
    if fault == Throws {
      return Failure(Caught(Foreign));
    }
    var own := FindUser(users, caller.id);
    if fault == SilentNoop || own.None? {
      return Failure(Caught(Trpc(NotFound)));
    }
    var updated := SetName(users, caller.id, name, now);
    SetNameKeepsIds(users, caller.id, name, now);
    SetNameFindsUpdatedRow(users, caller.id, name, now, own.value);
    db.users := updated;
    // `returning()` yields the updated row.
    r := Success(own.value.(name := name, updatedAt := now));
  }

  /** The literal the deletion schema demands. */
  const DeleteConfirmation: string := "DELETE MY ACCOUNT"

  function ChatsNotOwnedBy(rows: seq<ChatRow>, uid: string): seq<ChatRow> {
    Filter(rows, (c: ChatRow) => c.userId != Some(uid))
  }

  function SessionsNotOf(rows: seq<SessionRow>, uid: string): seq<SessionRow> {
    Filter(rows, (s: SessionRow) => s.userId != uid)
  }

  function AccountsNotOf(rows: seq<AccountRow>, uid: string): seq<AccountRow> {
    Filter(rows, (a: AccountRow) => a.userId != uid)
  }

  function UsersOtherThan(rows: seq<UserRow>, uid: string): seq<UserRow> {
    Filter(rows, (u: UserRow) => u.id != uid)
  }

  /** The response body of a successful deletion: `{ success: true }`. */
  datatype Deleted = Deleted(success: bool)

  /** The transaction of `deleteAccount`: deletes the caller's chats, sessions,
      accounts and finally the user row. It commits only when the user row was
      deleted; when that row is missing or the database fails, it rolls back and
      nothing is deleted. */
  method DeletionTransaction(db: Db, uid: string, fault: DbFault) returns (committed: bool)
    requires db.Valid()
    modifies db
    ensures db.Valid()
    ensures committed <==> fault == Healthy && FindUser(old(db.users), uid).Some?
    ensures committed ==>
      db.chats == ChatsNotOwnedBy(old(db.chats), uid) &&
      db.sessions == SessionsNotOf(old(db.sessions), uid) &&
      db.accounts == AccountsNotOf(old(db.accounts), uid) &&
      db.users == UsersOtherThan(old(db.users), uid)
    ensures !committed ==>
      db.chats == old(db.chats) && db.sessions == old(db.sessions) &&
      db.accounts == old(db.accounts) && db.users == old(db.users)
  {
    if fault == Throws {
      return false;
    }
    // The transaction works on its own copy of the tables; they are committed together.
    var chats := ChatsNotOwnedBy(db.chats, uid);
    var sessions := SessionsNotOf(db.sessions, uid);
    var accounts := AccountsNotOf(db.accounts, uid);
    var deletedUsers := if fault == SilentNoop then [] else UsersWithId(db.users, uid);
    var users := UsersOtherThan(db.users, uid);
    UsersWithIdEmptyIff(db.users, uid);
    assert |deletedUsers| == 0 <==> fault == SilentNoop || FindUser(db.users, uid).None?;
    if |deletedUsers| == 0 {
      // NOT_FOUND inside the transaction: everything is rolled back.
      return false;
    }
    DeletionKeepsKeysUnique(db.chats, db.users, uid);
    db.chats, db.sessions, db.accounts, db.users := chats, sessions, accounts, users;
    committed := true;
  }

  /** `deleteAccount({ confirmationText })`: anything but the literal is a BAD_REQUEST.
      Otherwise the deletion transaction runs; any failure of it, including a missing
      user row, reaches the client as INTERNAL_SERVER_ERROR with nothing deleted. */
  method DeleteAccount(db: Db, caller: SessionUser, confirmationText: string, fault: DbFault)
    returns (r: Result<Deleted, TrpcCode>)
    requires db.Valid()
    modifies db
    ensures db.Valid()
    ensures r.Success? <==>
      confirmationText == DeleteConfirmation && fault == Healthy && FindUser(old(db.users), caller.id).Some?
    ensures r.Failure? ==>
      r.error == (if confirmationText != DeleteConfirmation then BadRequest else InternalServerError)
    ensures r.Success? ==>
      r.value == Deleted(true) &&
      db.chats == ChatsNotOwnedBy(old(db.chats), caller.id) &&
      db.sessions == SessionsNotOf(old(db.sessions), caller.id) &&
      db.accounts == AccountsNotOf(old(db.accounts), caller.id) &&
      db.users == UsersOtherThan(old(db.users), caller.id)
    ensures r.Failure? ==>
      db.chats == old(db.chats) && db.sessions == old(db.sessions) &&
      db.accounts == old(db.accounts) && db.users == old(db.users)
  {
    if confirmationText != DeleteConfirmation {
      return Failure(BadRequest);
    }
    var committed := DeletionTransaction(db, caller.id, fault);
    if !committed {
      return Failure(InternalServerError);
    }
    r := Success(Deleted(true));
  }

  /** The rows `delete(user).where(eq(user.id, uid)).returning()` gives back. */
  function UsersWithId(rows: seq<UserRow>, uid: string): seq<UserRow> {
    Filter(rows, (u: UserRow) => u.id == uid)
  }

  /** The deletion returns no row exactly when the caller has no user row. */
  lemma UsersWithIdEmptyIff(rows: seq<UserRow>, uid: string)
    ensures |UsersWithId(rows, uid)| == 0 <==> FindUser(rows, uid).None?
  {
    var d := UsersWithId(rows, uid);
    if FindUser(rows, uid).Some? {
      var j :| 0 <= j < |rows| && rows[j] == FindUser(rows, uid).value;
      assert rows[j] in d;
    }
  }

  /** Deleting rows keeps the primary keys of what remains unique. */
  lemma DeletionKeepsKeysUnique(chats: seq<ChatRow>, users: seq<UserRow>, uid: string)
    requires UniqueChatIds(chats) && UniqueUserIds(users)
    ensures UniqueChatIds(ChatsNotOwnedBy(chats, uid)) && UniqueUserIds(UsersOtherThan(users, uid))
  {
    FilterKeepsPairwise(chats, (c: ChatRow) => c.userId != Some(uid), (a: ChatRow, b: ChatRow) => a.id != b.id);
    FilterKeepsPairwise(users, (u: UserRow) => u.id != uid, (a: UserRow, b: UserRow) => a.id != b.id);
  }

  /** After a deletion nothing of the caller's is left, and everything of everyone else
      is still there: chats, sessions, accounts and the user row alike. */
  lemma DeletionRemovesExactlyTheCallersData(rows: seq<ChatRow>, sessions: seq<SessionRow>,
                                              accounts: seq<AccountRow>, users: seq<UserRow>, uid: string)
    ensures forall c :: c in ChatsNotOwnedBy(rows, uid) <==> c in rows && c.userId != Some(uid)
    ensures forall s :: s in SessionsNotOf(sessions, uid) <==> s in sessions && s.userId != uid
    ensures forall a :: a in AccountsNotOf(accounts, uid) <==> a in accounts && a.userId != uid
    ensures forall u :: u in UsersOtherThan(users, uid) <==> u in users && u.id != uid
  {
    forall c | c in rows && c.userId != Some(uid) ensures c in ChatsNotOwnedBy(rows, uid) {
      var j :| 0 <= j < |rows| && rows[j] == c;
    }
    forall s | s in sessions && s.userId != uid ensures s in SessionsNotOf(sessions, uid) {
      var j :| 0 <= j < |sessions| && sessions[j] == s;
    }
    forall a | a in accounts && a.userId != uid ensures a in AccountsNotOf(accounts, uid) {
      var j :| 0 <= j < |accounts| && accounts[j] == a;
    }
    forall u | u in users && u.id != uid ensures u in UsersOtherThan(users, uid) {
      var j :| 0 <= j < |users| && users[j] == u;
    }
  }
}
