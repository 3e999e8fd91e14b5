/** src/middleware.ts: which requests are redirected, from the path and the session. */
module Middleware {
  import opened Strings

  /** `pathname.startsWith('/chat')`: also "/chatx" and "/chat-history". */
  predicate IsProtectedRoute(path: string) {
    StartsWith(path, "/chat")
  }

  /** `pathname.startsWith('/signin') || pathname.startsWith('/signup')`. */
  predicate IsAuthRoute(path: string) {
    StartsWith(path, "/signin") || StartsWith(path, "/signup")
  }

  /** What `auth.api.getSession` gave: a session with a user, none, or a throw. */
  datatype SessionLookup = Authenticated | Anonymous | LookupFailed

  datatype Decision = Next | Redirect(to: string)

  /** The session is looked up only for a protected or an auth route. */
  predicate LooksUpSession(path: string) {
    IsProtectedRoute(path) || IsAuthRoute(path)
  }

  /** `middleware`: on a protected route, anyone not known to be signed in is sent to
      "/"; on an auth route, a signed-in user is sent to "/chat" and a failed lookup
      passes; every other request passes. */
  function Decide(path: string, lookup: SessionLookup): (d: Decision)
    ensures IsProtectedRoute(path) && lookup != Authenticated ==> d == Redirect("/")
    ensures IsAuthRoute(path) && lookup == Authenticated ==> d == Redirect("/chat")
    ensures IsAuthRoute(path) && lookup != Authenticated ==> d == Next
    ensures IsProtectedRoute(path) && lookup == Authenticated ==> d == Next
    ensures !LooksUpSession(path) ==> d == Next
  {
    AuthRouteIsNotProtected(path);
    if IsProtectedRoute(path) || IsAuthRoute(path) then
      match lookup
      case LookupFailed => if IsProtectedRoute(path) then Redirect("/") else Next
      case Authenticated => if IsAuthRoute(path) then Redirect("/chat") else Next
      case Anonymous => if IsProtectedRoute(path) then Redirect("/") else Next
    else Next
  }

  /** No path is both: the prefixes differ at their second character. */
  lemma AuthRouteIsNotProtected(path: string)
    ensures !(IsProtectedRoute(path) && IsAuthRoute(path))
  {
    assert IsProtectedRoute(path) ==> path[..5][1] == 'c';
    assert IsAuthRoute(path) ==> path[..7][1] == 's';
  }

  /** Without a lookup the outcome cannot depend on the session. */
  lemma UnguardedPathIgnoresSession(path: string, a: SessionLookup, b: SessionLookup)
    requires !LooksUpSession(path)
    ensures Decide(path, a) == Decide(path, b) == Next
  {
  }

  /** The prefix test also catches paths that merely begin like "/chat". */
  lemma ChatLikePathIsProtected()
    ensures IsProtectedRoute("/chatx")
    ensures Decide("/chatx", Anonymous) == Redirect("/")
  {
    assert "/chatx"[..5] == "/chat";
  }

  /** Every redirect goes to "/" or "/chat", and "/chat" only from an auth route. */
  lemma RedirectTargets(path: string, lookup: SessionLookup)
    ensures Decide(path, lookup).Redirect? ==> Decide(path, lookup).to in {"/", "/chat"}
    ensures Decide(path, lookup) == Redirect("/chat") ==> IsAuthRoute(path) && lookup == Authenticated
  {
    AuthRouteIsNotProtected(path);
  }
}
