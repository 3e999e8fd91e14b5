/** src/trpc/query-client.ts: when a failed query or mutation is retried, and which
    queries are sent along with server-rendered pages. */
module QueryClient {
  import opened Wrappers
  import opened Strings
  import Trpc

  /** Whether an error's message mentions UNAUTHORIZED: `error?.message?.includes(...)`,
      where a missing error or message is falsy. */
  predicate IsUnauthorized(message: Option<string>) {
    message.Some? && Includes(message.value, "UNAUTHORIZED")
  }

  /** The queries' `retry`: never for an unauthorized error, otherwise up to three
      failures. */
  function QueryRetry(failureCount: nat, message: Option<string>): (retry: bool)
    ensures IsUnauthorized(message) ==> !retry
    ensures !IsUnauthorized(message) ==> (retry <==> failureCount < 3)
  {
    if IsUnauthorized(message) then false else failureCount < 3
  }

  /** The mutations' `retry`, written out again in the source. */
  function MutationRetry(failureCount: nat, message: Option<string>): (retry: bool)
    ensures IsUnauthorized(message) ==> !retry
    ensures !IsUnauthorized(message) ==> (retry <==> failureCount < 3)
  {
    if IsUnauthorized(message) then false else failureCount < 3
  }

  /** The two predicates agree on every input. */
  lemma MutationRetryIsQueryRetry(failureCount: nat, message: Option<string>)
    ensures MutationRetry(failureCount, message) == QueryRetry(failureCount, message)
  {
  }

  /** How many more attempts follow once a request has failed `failureCount` times and
      every attempt fails with the same error: the retry loop of the query library, which
      asks `QueryRetry` after each failure. */
  function RetriesAfter(failureCount: nat, message: Option<string>): (r: nat)
    ensures r == 0 || r + failureCount <= 3
    ensures r > 0 ==> QueryRetry(failureCount, message)
    decreases 3 - failureCount
  {
    if QueryRetry(failureCount, message) then 1 + RetriesAfter(failureCount + 1, message) else 0
  }

  /** A request that keeps failing is retried three times after its first failure, and
      not at all when it failed as unauthorized. */
  lemma {:induction false} RetriesAreBounded(failureCount: nat, message: Option<string>)
    ensures RetriesAfter(failureCount, message) ==
      if IsUnauthorized(message) || failureCount >= 3 then 0 else 3 - failureCount
    decreases 3 - failureCount
  {
    if QueryRetry(failureCount, message) {
      RetriesAreBounded(failureCount + 1, message);
    }
  }

  /** A `TRPCError` thrown with the UNAUTHORIZED code and no message (as `chat.get`
      does) carries the code's name as its message, so it is never retried. */
  lemma UnauthorizedGetIsNotRetried(failureCount: nat)
    ensures !QueryRetry(failureCount, Some(Trpc.CodeName(Trpc.Unauthorized)))
  {
    assert OccursAt("UNAUTHORIZED", "UNAUTHORIZED", 0);
  }

  /** A message that merely contains the word, anywhere, also stops the retries. */
  lemma UnauthorizedAnywhereIsNotRetried(failureCount: nat, before: string, after: string)
    ensures !QueryRetry(failureCount, Some(before + "UNAUTHORIZED" + after))
  {
    var s := before + "UNAUTHORIZED" + after;
    assert s[|before|..|before| + 12] == "UNAUTHORIZED";
    assert OccursAt(s, "UNAUTHORIZED", |before|);
  }

  datatype QueryStatus = Pending | Success | Error

  /** `shouldDehydrateQuery`: what the library would dehydrate anyway, and also every
      query still pending. */
  function ShouldDehydrate(defaultPredicate: bool, status: QueryStatus): (d: bool)
    ensures d <==> defaultPredicate || status == Pending
  {
    defaultPredicate || status == Pending
  }
}
