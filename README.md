# t3-chat-app: a Dafny model of the chat app's rules

t3-chat-app is a small Next.js chat application with a tRPC API over a Postgres
database. This project models the rules underneath it and proves properties of them:

- the transcript store (`src/lib/chat-store.ts`, `src/tools/chat-store.ts`): which chat
  is created, how a transcript is read, overwritten and extracted;
- the tRPC chat router: listing the caller's chats newest first, and the ownership check
  of `get`;
- the tRPC profile router: the email and name changes with their ordered error codes,
  and the all-or-nothing account deletion;
- the client's checks and helpers: the settings page's email, password and deletion
  checks and its form state, the profile card's initials and truncation, image
  validation, and the retry and dehydration predicates of the query client;
- the HTTP routes and the middleware: the chat endpoint's error mapping and request
  shape, the save-chat status decision, the redirect table, and the Chat component's
  delete and request body.

The database is one `Database.Db` object. It holds four tables (chats, users, sessions,
accounts) as sequences of rows in storage order, and `Db.Valid()` says that chat ids and
user ids are unique. The routers and stores are methods that change these fields, and each is
specified against pure functions on the rows (`WithMessages`, `SetEmail`, `Filter`, ...).
Properties of those functions are proved as lemmas.

The model cannot see some of what the code depends on, so those things become
parameters:

- a fresh id from `generateId` is the `id` parameter; an id already in the table makes
  the insert fail, as a primary-key violation does;
- `new Date()` is `now`;
- a database that throws, or a write that returns no row, is a `DbFault`:
  `Healthy | Throws | SilentNoop`;
- the AI SDK's `appendClientMessage` is an uninterpreted function `combine`;
- what `authClient.changePassword` returned is an `AuthOutcome`;
- the answer to the browser's `confirm` dialog is a `bool`.

Some of the code's behaviour is easy to misread. The model follows the code:

- `POST /api/save-chat` answers 200 even when the store fails, because
  `saveChatMessages` swallows its own errors.
- Deleting a message in the Chat component removes every message with that id, not
  exactly one. With unique ids it removes exactly one
  (`ChatComponent.DeleteUniqueRemovesOne`).
- The chat router has no delete procedure.
- The chat endpoint never saves the transcript: nothing writes to the store after
  streaming.
- Saving to an unknown chat id only logs a warning; it does not fail.
- The name schema checks the length before trimming, so a name of spaces passes and is
  stored as the empty name (`ProfileRouter.BlankNamePassesSchema`).

## Model

| member | source | states |
|---|---|---|
| Database.FindChat | src/lib/chat-store.ts:89-94 | the row found has the id; nothing is found exactly when no row has it |
| Database.FindChatUnique | src/server/db/schema.ts:20 | with unique ids, looking up a row's id finds that row |
| Database.WithMessages | src/lib/chat-store.ts:108-112 | the update replaces the messages (and stamps `updatedAt`) of every row with the id, and leaves every other row and field as it was |
| Database.SaveUnknownIdIsNoop | src/lib/chat-store.ts:117-118 | saving to an id no row has leaves the table unchanged |
| Database.SaveTwiceKeepsLast | src/lib/chat-store.ts:108-112 | two saves to one id leave what the second alone leaves; saving the same list twice is saving it once |
| Database.SaveKeepsKeys | src/tools/chat-store.ts:53-57 | a save keeps every row's id, name, owner and creation time |
| Database.SaveKeepsUniqueIds | src/tools/chat-store.ts:53-57 | a save keeps primary keys unique |
| Database.ReadAfterSave | src/lib/chat-store.ts:88-112 | after a save, reading the chat gives the saved list; an unknown chat stays unknown |
| Database.SaveKeepsOtherChats | src/tools/chat-store.ts:53-57 | a save leaves every other chat exactly as it was |
| Database.FindUser | src/server/api/routers/profile.ts:10-12 | the user found has the id; none exactly when no row has it |
| Database.FindUserByEmail | src/server/api/routers/profile.ts:44-46 | the user found has the email; none exactly when no row has it |
| LibChatStore.StringContentWins | src/lib/chat-store.ts:13-15 | a non-empty string `content` is the result as it is |
| LibChatStore.FirstTextPartWins | src/lib/chat-store.ts:18-23 | failing that, the text of the first part of type "text" is the result |
| LibChatStore.FirstTextualItemWins | src/lib/chat-store.ts:26-36 | failing both, the first string item of an array `content`, or the text of its first object item with one, is the result |
| LibChatStore.LastMessageContent | src/lib/chat-store.ts:6-43 | an absent message, or one with no non-empty string content, no parts and no array content, gives "" |
| LibChatStore.ResultHasASource | src/lib/chat-store.ts:6-43 | a non-empty result comes from one of the three places, so an absent message or one with no match gives "" |
| LibChatStore.CreateChat | src/lib/chat-store.ts:47-86 | success exactly when the database works and the id is fresh; it then appends one empty chat named "New conversation" owned by the user and returns the id; a failure leaves the table unchanged and says whether the insert threw or returned no row |
| LibChatStore.GetChatMessages | src/lib/chat-store.ts:88-98 | the stored list of the chat, or [] when there is none; fails only when the database throws |
| LibChatStore.SaveChatMessages | src/lib/chat-store.ts:100-125 | the chats become `WithMessages` of the old chats on a working database, and stay unchanged otherwise; what is logged; it never fails |
| LibChatStore.GetChat | src/lib/chat-store.ts:128-132 | the whole row with the id, or nothing exactly when there is none; fails exactly when the query throws |
| ToolsChatStore.ChatName | src/tools/chat-store.ts:14 | the name is "New chat id: " followed by the id |
| ToolsChatStore.CreateChat | src/tools/chat-store.ts:6-30 | as the library store, but the chat has no owner and is named after its id |
| ToolsChatStore.GetChatMessages | src/tools/chat-store.ts:33-43 | the stored list, or [] for a missing chat |
| ToolsChatStore.SaveChatMessages | src/tools/chat-store.ts:45-71 | a full overwrite of the messages of the chat on a working database, nothing otherwise; an unknown id only warns; the call always completes |
| ToolsChatStore.GetChat | src/tools/chat-store.ts:74-78 | the whole record for the id, or nothing; fails exactly when the query throws |
| ChatRouter.InsertNewestFirst | src/server/api/routers/chat.ts:19 | inserting into a newest-first list keeps it newest first |
| ChatRouter.InsertNewestFirstPermutes | src/server/api/routers/chat.ts:19 | the insertion adds the one row and loses none |
| ChatRouter.SortNewestFirst | src/server/api/routers/chat.ts:19 | the result is newest first and a permutation of the input |
| ChatRouter.List | src/server/api/routers/chat.ts:11-22 | the caller's chats, newest first, each exactly as often as in the table; INTERNAL_SERVER_ERROR exactly when the query throws |
| ChatRouter.ListIsCallersChats | src/server/api/routers/chat.ts:17-18 | a chat is listed exactly when it is in the table and owned by the caller |
| ChatRouter.Get | src/server/api/routers/chat.ts:24-37 | a returned chat has the id and belongs to the caller; a query that throws is INTERNAL_SERVER_ERROR, and every other rejection is UNAUTHORIZED |
| ChatRouter.GetSucceedsIffOwned | src/server/api/routers/chat.ts:32-36 | with unique ids, `get` returns the row unchanged exactly when the caller owns it |
| ChatRouter.ForeignChatLooksMissing | src/server/api/routers/chat.ts:32-34 | someone else's chat and a missing chat give the same answer |
| ChatRouter.FindAppended | src/server/api/routers/chat.ts:39-46 | a row appended under a fresh id is found by that id |
| ChatRouter.Create | src/server/api/routers/chat.ts:39-46 | a successful create appends a chat owned by the caller that `get` then returns to the caller; a failure is INTERNAL_SERVER_ERROR with the table unchanged |
| ProfileRouter.GetProfile | src/server/api/routers/profile.ts:9-19 | the caller's row; a query that throws is INTERNAL_SERVER_ERROR; otherwise NOT_FOUND exactly when the row is missing |
| ProfileRouter.Caught | src/server/api/routers/profile.ts:74-81 | a tRPC error is rethrown with its code, anything else becomes INTERNAL_SERVER_ERROR |
| ProfileRouter.ParseEmailInput | src/server/api/routers/profile.ts:24-30 | BAD_REQUEST exactly for a raw length outside 1..320; otherwise the lower-cased, trimmed email |
| ProfileRouter.ParseNameInput | src/server/api/routers/profile.ts:88-92 | BAD_REQUEST exactly for a raw length outside 1..100; otherwise the trimmed name |
| ProfileRouter.BlankNamePassesSchema | src/server/api/routers/profile.ts:88-92 | a name of three spaces passes the schema as "" |
| ProfileRouter.SetEmail | src/server/api/routers/profile.ts:56-64 | only rows with the caller's id get the new email, `emailVerified = false` and the new `updatedAt` |
| ProfileRouter.SetName | src/server/api/routers/profile.ts:105-112 | only rows with the caller's id get the new name and `updatedAt` |
| ProfileRouter.SetEmailKeepsIds | src/server/api/routers/profile.ts:56-64 | the email update keeps primary keys unique |
| ProfileRouter.SetNameKeepsIds | src/server/api/routers/profile.ts:105-112 | the name update keeps primary keys unique |
| ProfileRouter.ConflictIffHeldByOther | src/server/api/routers/profile.ts:44-53 | with unique emails, the lookup finds another user exactly when another user holds the email |
| ProfileRouter.SetEmailKeepsUniqueEmails | src/server/api/routers/profile.ts:44-64 | an email change that passed the conflict check keeps emails unique |
| ProfileRouter.SetEmailFindsUpdatedRow | src/server/api/routers/profile.ts:56-73 | the row the update returns is the caller's old row with the new email and verification reset |
| ProfileRouter.SetNameFindsUpdatedRow | src/server/api/routers/profile.ts:105-121 | the row the update returns is the caller's old row with the new name |
| ProfileRouter.UpdateEmail | src/server/api/routers/profile.ts:21-83 | a malformed input is BAD_REQUEST and changes nothing; otherwise the outcome is the resolver's on the normalised email |
| ProfileRouter.ChangeEmailOutcome | src/server/api/routers/profile.ts:34-73 | the checks in order, case by case: the current email again is BAD_REQUEST, a failing database INTERNAL_SERVER_ERROR, an email another user holds CONFLICT, a silent write or a missing caller row NOT_FOUND, and every check passing a success; a success is the caller's row with the new email, unverified |
| ProfileRouter.ChangeEmailConflictIffHeldByOther | src/server/api/routers/profile.ts:44-53 | with unique emails, CONFLICT exactly when another user holds the email; success exactly when the email is new, nobody else holds it, the row exists and the database works |
| ProfileRouter.ChangeEmail | src/server/api/routers/profile.ts:33-83 | returns `ChangeEmailOutcome`; a rejection leaves the users unchanged; a success applies `SetEmail` for the caller only and returns the updated row |
| ProfileRouter.UpdateName | src/server/api/routers/profile.ts:85-131 | malformed input or the current name is BAD_REQUEST, a failing database INTERNAL_SERVER_ERROR, a silent write NOT_FOUND; a success changes only the caller's name and returns the updated row |
| ProfileRouter.DeletionTransaction | src/server/api/routers/profile.ts:146-169 | commits exactly when the database works and the user row exists; it then removes the caller's chats, sessions, accounts and user row together; otherwise nothing is deleted |
| ProfileRouter.DeleteAccount | src/server/api/routers/profile.ts:133-179 | anything but the literal is BAD_REQUEST; any failure of the transaction, including a missing user, is INTERNAL_SERVER_ERROR with every table unchanged; success returns `{ success: true }` |
| ProfileRouter.UsersWithIdEmptyIff | src/server/api/routers/profile.ts:158-163 | the deletion returns no row exactly when the caller has no user row |
| ProfileRouter.DeletionKeepsKeysUnique | src/server/api/routers/profile.ts:146-169 | the deletion keeps primary keys unique |
| ProfileRouter.DeletionRemovesExactlyTheCallersData | src/server/api/routers/profile.ts:149-161 | after deletion no chat, session, account or user row of the caller's is left, and every row of everyone else remains |
| Strings.TrimIdempotent | src/server/api/routers/profile.ts:92 | trimming a trimmed name changes nothing |
| Strings.TrimBlank | src/server/api/routers/profile.ts:92 | a string trims to "" exactly when it is all whitespace |
| Strings.JoinSplit | src/components/profile-card.tsx:35 | splitting on spaces loses no character: joining the words gives the name back |
| Strings.NormalizeIdempotent | src/server/api/routers/profile.ts:29-30 | lower-casing and trimming twice is doing it once |
| SettingsPage.MatchesEmailRegex | src/components/settings-page.tsx:101 | the client's email regular expression: an '@' and a later '.' split the string into three non-empty runs without whitespace or '@'; a match has at least 5 characters |
| SettingsPage.RegexGivesShape | src/components/settings-page.tsx:101 | a string the regular expression accepts has no whitespace, one '@' with text before it, and a '.' inside the domain |
| SettingsPage.ShapeGivesRegex | src/components/settings-page.tsx:101 | every string of that shape is accepted |
| SettingsPage.EmailRegexIffShape | src/components/settings-page.tsx:101 | the regular expression accepts exactly the strings of that shape |
| SettingsPage.EmailCheck | src/components/settings-page.tsx:87-105 | first failure wins: the unchanged email, then a blank one, then the regex; it passes exactly when the email is new and well-shaped |
| SettingsPage.SolidEmailIsOnlyLowered | src/components/settings-page.tsx:107-109 | for an email without whitespace, the submitted email is just the lower-cased input |
| SettingsPage.AcceptedEmailIsOnlyLowered | src/components/settings-page.tsx:101-109 | an email the client accepts is sent lower-cased, at its own length of at least 5 |
| SettingsPage.AcceptedEmailPassesServerSchema | src/components/settings-page.tsx:107-109 | the model's server schema, which has no `.email()` check, accepts what the client sends (up to 320 characters) and leaves it unchanged |
| SettingsPage.PasswordCheck | src/components/settings-page.tsx:112-138 | the five checks in order, first failure wins; it passes exactly when both passwords are non-blank, the new one has at least 8 characters, matches the confirmation and differs from the current one |
| SettingsPage.BlankLongPasswordIsRequired | src/components/settings-page.tsx:120-128 | eight spaces are reported as a missing password, not as a length problem |
| SettingsPage.PasswordChangeErrorMessage | src/components/settings-page.tsx:146-152 | "Invalid password" becomes "Current password is incorrect"; a missing or empty message the default; any other message itself; never empty |
| SettingsPage.DeleteButtonDisabled | src/components/settings-page.tsx:478-481 | the button is enabled exactly when the literal is typed and nothing is pending |
| SettingsPage.EmailButtonDisabled | src/components/settings-page.tsx:334 | the button is disabled exactly when the first email check (the unchanged email) fails or the update is pending |
| SettingsPage.EnabledEmailButtonMayStillFail | src/components/settings-page.tsx:95-98 | an enabled button lets a blank email through, and the checks then reject it |
| SettingsPage.PasswordButtonDisabled | src/components/settings-page.tsx:410 | the button is enabled exactly when all three fields are non-empty |
| SettingsPage.PassingPasswordsEnableButton | src/components/settings-page.tsx:112-138 | input that passes the password checks always has the button enabled |
| SettingsPage.EnabledPasswordButtonMayStillFail | src/components/settings-page.tsx:125-128 | an enabled button lets a short password through, and the length check rejects it |
| SettingsPage.SettingsForm.constructor | src/components/settings-page.tsx:42-49 | the email input starts with the user's email and every other field empty |
| SettingsPage.SettingsForm.EditEmail | src/components/settings-page.tsx:314-317 | typing sets the email input and clears its error only |
| SettingsPage.SettingsForm.EditPassword | src/components/settings-page.tsx:362-396 | typing sets one password input and clears the password error only |
| SettingsPage.SettingsForm.EditDeleteConfirmation | src/components/settings-page.tsx:464-467 | typing sets the confirmation and clears the deletion error only |
| SettingsPage.SettingsForm.HandleEmailUpdate | src/components/settings-page.tsx:87-110 | the error is `EmailCheck`'s message or ""; the lower-cased, trimmed email is sent exactly when the check passes |
| SettingsPage.SettingsForm.OnEmailUpdateSettled | src/components/settings-page.tsx:53-70 | success clears the email error; failure shows the server's message |
| SettingsPage.SettingsForm.HandlePasswordChange | src/components/settings-page.tsx:112-168 | the auth client is called exactly when `PasswordCheck` passes; otherwise its message is the error |
| SettingsPage.SettingsForm.OnPasswordChangeSettled | src/components/settings-page.tsx:140-168 | a success clears the three password inputs; a returned error is shown as mapped; a throw shows the default |
| SettingsPage.SettingsForm.HandleDeleteAccount | src/components/settings-page.tsx:171-195 | a wrong literal sets the deletion error; a refused dialog changes nothing; an accepted one clears the error and sends the literal |
| SettingsPage.SettingsForm.OnDeleteError | src/components/settings-page.tsx:82-84 | the server's message becomes the deletion error |
| ProfileCard.DisplayName | src/components/profile-card.tsx:33 | the name when non-empty, otherwise the email |
| ProfileCard.FirstChars | src/components/profile-card.tsx:34-37 | at most one initial per word |
| ProfileCard.Slice | src/components/profile-card.tsx:39 | `slice(0, n)`: the first n characters, or the whole string when it is shorter |
| ProfileCard.WordStarts | src/components/profile-card.tsx:34-38 | every initial is a non-space character of the name |
| ProfileCard.FirstCharsOfSplit | src/components/profile-card.tsx:34-37 | first characters of the space-separated words are exactly the characters that start a word |
| ProfileCard.FullInitials | src/components/profile-card.tsx:34-38 | the upper-cased word starts of the display name |
| ProfileCard.Initials | src/components/profile-card.tsx:34-39 | at most two characters, a prefix of the full initials, and all of them when there are fewer than two |
| ProfileCard.FirstCharsConcat | src/components/profile-card.tsx:35-37 | first characters of two word lists in a row are those of each, in order |
| ProfileCard.EmptyWordsContributeNothing | src/components/profile-card.tsx:35-37 | an empty word adds no initial |
| ProfileCard.Truncate | src/components/profile-card.tsx:131-133 | a string within the bound is unchanged; a longer one is its first n characters followed by "..." |
| ProfileCard.NameLine | src/components/profile-card.tsx:131-133 | the name line is at most 21 characters and is the name itself up to 18 |
| ProfileCard.SecondLine | src/components/profile-card.tsx:136-140 | "Account" when the email is what is shown; otherwise the email cut at 22 characters |
| ProfileCard.NamelessUserShowsAccount | src/components/profile-card.tsx:136-140 | a user without a name sees "Account" under the email |
| ProfileCard.Card | src/components/profile-card.tsx:28-30 | nothing is shown exactly while the session is pending or has no user |
| ImageValidation.ValidateImageFile | src/lib/utils.ts:17-35 | valid exactly for a supported type within the size bound; no error when valid, always one when not; the type is checked first |
| ImageValidation.SupportedTypesAreExactly | src/lib/utils.ts:9 | the supported types are exactly JPEG, PNG and WebP |
| ImageValidation.SizeBoundIsInclusive | src/lib/utils.ts:27 | exactly 10 MiB is accepted, one byte more rejected |
| ImageValidation.TypeReportedBeforeSize | src/lib/utils.ts:19-32 | an unsupported type is reported even for a file that is also too large |
| QueryClient.QueryRetry | src/trpc/query-client.ts:14-21 | never for an unauthorized error; otherwise exactly while fewer than three failures |
| QueryClient.MutationRetry | src/trpc/query-client.ts:24-31 | the same rule for mutations |
| QueryClient.MutationRetryIsQueryRetry | src/trpc/query-client.ts:14-31 | the two predicates agree on every input |
| QueryClient.RetriesAfter | src/trpc/query-client.ts:14-21 | the further attempts of a request that keeps failing: at most `3 - failureCount`, and one only when `retry` allows it |
| QueryClient.RetriesAreBounded | src/trpc/query-client.ts:14-21 | after a failure reported with `failureCount` n (0 for the first), `3 - n` more attempts follow while n < 3, and none when the error is unauthorized |
| QueryClient.UnauthorizedGetIsNotRetried | src/trpc/query-client.ts:16-18 | the UNAUTHORIZED error of `chat.get` is never retried |
| QueryClient.UnauthorizedAnywhereIsNotRetried | src/trpc/query-client.ts:16 | any message containing UNAUTHORIZED stops the retries |
| QueryClient.ShouldDehydrate | src/trpc/query-client.ts:35-37 | dehydrated exactly when the default predicate holds or the query is pending |
| ChatRoute.ErrorMessage | src/app/api/chat/route.ts:50-61 | null or undefined gives "unknown error", a string itself, an Error its message, anything else its JSON |
| ChatRoute.GeneratedId | src/app/api/chat/route.ts:28-31 | a generated id starts with its prefix and has the length of its parts |
| ChatRoute.StreamFor | src/app/api/chat/route.ts:11-31 | the stream always uses gpt-4o and "msgs" ids of size 16, over the stored transcript (or []) combined with the new message |
| ChatRoute.Post | src/app/api/chat/route.ts:9-67 | a body that is not JSON or a failing store gives 500 with `{"error":"Internal server error"}`; otherwise the stream of `StreamFor` |
| ChatRoute.OnlyMessageAndIdMatter | src/app/api/chat/route.ts:11 | requests that agree on message and id get the same stream |
| SaveChatRoute.Post | src/app/api/save-chat/route.ts:10-31 | 500 only for a body that is not JSON, 400 for a missing id or messages, otherwise 200 `{"success":true}` whatever the store did; the transcript is overwritten only on 200 with a working database |
| SaveChatRoute.Status | src/app/api/save-chat/route.ts:18-30 | the three statuses and exactly when each is given |
| SaveChatRoute.EmptyTranscriptIsSaved | src/app/api/save-chat/route.ts:18-20 | an empty message list is accepted |
| Middleware.Decide | src/middleware.ts:5-41 | a protected path without a known user goes to "/", an auth route with a user to "/chat", a failed lookup lets an auth route pass, everything else passes |
| Middleware.AuthRouteIsNotProtected | src/middleware.ts:9-12 | no path is both protected and an auth route |
| Middleware.UnguardedPathIgnoresSession | src/middleware.ts:14-40 | a path that needs no lookup passes whatever the session is |
| Middleware.ChatLikePathIsProtected | src/middleware.ts:9 | "/chatx" is protected and sends an anonymous visitor to "/" |
| Middleware.RedirectTargets | src/middleware.ts:24-37 | redirects go only to "/" or "/chat", and to "/chat" only for a signed-in user on an auth route |
| ChatComponent.DeleteMessage | src/components/Chat.tsx:51-53 | no message with the id remains; every other message does |
| ChatComponent.DeleteKeepsOrder | src/components/Chat.tsx:52 | deleting works piecewise, so the kept messages keep their relative order |
| ChatComponent.DeleteAbsentIsNoop | src/components/Chat.tsx:52 | deleting an absent id leaves the list unchanged |
| ChatComponent.DeleteIdempotent | src/components/Chat.tsx:52 | deleting twice is deleting once |
| ChatComponent.DeleteUniqueRemovesOne | src/components/Chat.tsx:52 | with unique ids, deleting a present id removes exactly one message |
| ChatComponent.DeleteRemovesEveryCopy | src/components/Chat.tsx:52 | two messages sharing an id are both removed |
| ChatComponent.PrepareRequestBody | src/components/Chat.tsx:35-37 | the body carries the chat id and the last message, none for an empty list |
| ChatComponent.BodyCarriesNewMessage | src/components/Chat.tsx:35-37 | after appending a message, the body carries exactly that message |
| ChatComponent.IdNamespacesAreDisjoint | src/components/Chat.tsx:31-34 | client ids ("msgc") never equal server ids ("msgs"); both prefixes have length 4 and size 16 |
| ChatComponent.ReloadEnabled | src/components/Chat.tsx:94 | reload is disabled exactly while a request is submitted or streaming |
| ChatComponent.InputDisabled | src/components/Chat.tsx:134 | the input is disabled exactly while an error is present |

## Left out

- I/O and foreign libraries become parameters or are dropped:
  - Drizzle queries become operations on the sequences in `Db`. The transaction is a method that commits all four tables at once or none.
  - better-auth: the session lookup, `changePassword` and `signOut`.
  - The AI SDK: streaming, `appendClientMessage`, `toDataStreamResponse` and `useChat`.
  - Browser dialogs (`alert`, `confirm`) and router navigation.
  - Console logging. Where a log is the only visible outcome it is returned as a `SaveLog` value.
- The stream itself is left out: `maxDuration`, `experimental_throttle`, and the weather tool's `Math.random`/`Math.round` (floating point).
- The randomness of `generateId` and `createIdGenerator` is a parameter. The library's separator between prefix and random part is also a parameter.
- ProfileRouter.ParseEmailInput: leaves out Zod's `.email()` check, a foreign validator, so it accepts inputs the source rejects.
- SettingsPage.AcceptedEmailPassesServerSchema: holds of the model's schema only. The real `.email()` check wants a top-level domain of at least two letters, so it rejects some emails the client's regular expression accepts, such as `a@b.c`.
- ProfileRouter.UpdateEmail: inherits that gap. The error messages of the tRPC errors are not modelled, only their codes.
- ProfileRouter.ConflictIffHeldByOther: requires unique emails. The user table's schema is not part of this model, so uniqueness is assumed there and in the lemmas that use it, not taken from a constraint.
- Strings.ToLower: maps only ASCII letters. `toLowerCase` and `toUpperCase` map all of Unicode.
- Lengths are in Dafny characters, not UTF-16 code units, so astral characters count once. This affects `Truncate`, `Slice`, the 320/100/8 character bounds and `n[0]`.
- ChatRouter.List: picks one order for chats with the same `createdAt`. The database leaves that order unspecified.
- `getLastMessageContent`'s `try`/`catch` cannot fire in the model. A part whose `text` key holds `undefined` is treated as a part without the key.
- The null check on the stored transcript in the chat route is unreachable, because the store answers `[]` for a missing chat. It is commented in `ChatRoute.Post`, not modelled as a branch.
- The middleware's empty matcher disables it in deployment. The model covers the decision function only.
- Left out as presentation or scaffolding: `formatDate` (Intl), `convertFileToBase64` and `FileUpload.tsx` (browser file I/O), `post.ts`, and the presentation-only components. It is also left out that `src/components/ui/chat.tsx` and `src/app/page.tsx` repeat the delete filter of `Chat.tsx`.
- Concurrency: each operation is one atomic step. Interleaved requests from several tabs are not modelled.
