/**
  The route guard run on every request: it classifies the path by prefix and
  either redirects to the sign-in page, redirects to the project list, or lets
  the request through. The session lookup and the cookie plumbing are not part
  of this model; whether a session exists is an input.
 */
module Middleware {
  import opened Wrappers
  import opened Text

  /** What the guard answers for a request. */
  datatype Response =
    | Next
    | Redirect(path: string, redirectParam: Option<string>)

  const ProtectedPaths: seq<string> := ["/projects", "/tasks"]
  const AuthPaths: seq<string> := ["/sign-in", "/sign-up"]

  /** `prefixes.some(p => path.startsWith(p))`. */
  predicate StartsWithAny(path: string, prefixes: seq<string>) {
    exists i :: 0 <= i < |prefixes| && StartsWith(path, prefixes[i])
  }

  predicate IsProtectedPath(pathname: string) {
    StartsWithAny(pathname, ProtectedPaths)
  }

  predicate IsAuthPath(pathname: string) {
    StartsWithAny(pathname, AuthPaths)
  }

  /** The guard's decision for a path, its query string (with its `?`) and the session state. */
  function Decide(pathname: string, search: string, hasSession: bool): (r: Response)
    ensures r.Redirect? ==> r.path == (if hasSession then "/projects" else "/sign-in")
    ensures r.Redirect? ==> (r.redirectParam.Some? <==> !hasSession)
    ensures r.Redirect? && r.redirectParam.Some? ==> r.redirectParam.value == pathname + search
    ensures r.Redirect? ==> IsProtectedPath(pathname) || IsAuthPath(pathname)
  {
    if IsProtectedPath(pathname) && !hasSession then
      Redirect("/sign-in", Some(pathname + search))
    else if IsAuthPath(pathname) && hasSession then
      Redirect("/projects", None)
    else
      Next
  }

  /** A path is protected exactly when it starts with "/projects" or with "/tasks". */
  lemma ProtectedIff(pathname: string)
    ensures IsProtectedPath(pathname) <==> StartsWith(pathname, "/projects") || StartsWith(pathname, "/tasks")
  {
    if StartsWith(pathname, "/projects") {
      assert StartsWith(pathname, ProtectedPaths[0]);
    }
    if StartsWith(pathname, "/tasks") {
      assert StartsWith(pathname, ProtectedPaths[1]);
    }
  }

  /** A path is an auth page exactly when it starts with "/sign-in" or with "/sign-up". */
  lemma AuthIff(pathname: string)
    ensures IsAuthPath(pathname) <==> StartsWith(pathname, "/sign-in") || StartsWith(pathname, "/sign-up")
  {
    if StartsWith(pathname, "/sign-in") {
      assert StartsWith(pathname, AuthPaths[0]);
    }
    if StartsWith(pathname, "/sign-up") {
      assert StartsWith(pathname, AuthPaths[1]);
    }
  }

  /** The test is on the prefix only: a task page is protected, a page that merely mentions projects is not. */
  lemma PrefixExamples()
    ensures IsProtectedPath("/tasks/42")
    ensures !IsProtectedPath("/protected/projects")
    ensures IsProtectedPath("/projectsX")
  {
    ProtectedIff("/tasks/42");
    ProtectedIff("/protected/projects");
    ProtectedIff("/projectsX");
    assert "/tasks/42"[..6] == "/tasks";
    assert "/projectsX"[..9] == "/projects";
    assert "/protected/projects"[4] != "/projects"[4];
    assert "/protected/projects"[1] != "/tasks"[1];
  }

  /** No path is both protected and an auth page: the two prefixes differ in their second character. */
  lemma ProtectedAndAuthDisjoint(pathname: string)
    ensures !(IsProtectedPath(pathname) && IsAuthPath(pathname))
  {
    ProtectedIff(pathname);
    AuthIff(pathname);
    if StartsWith(pathname, "/projects") || StartsWith(pathname, "/tasks") {
      assert pathname[1] != 's' by {
        if StartsWith(pathname, "/projects") {
          assert pathname[1] == "/projects"[1];
        } else {
          assert pathname[1] == "/tasks"[1];
        }
      }
      assert pathname[1] != "/sign-in"[1] && pathname[1] != "/sign-up"[1];
    }
  }

  /**
    The guard's full case table, stated on the prefixes themselves: a protected
    path without a session goes to "/sign-in" carrying the path and query as
    `redirect`; an auth page with a session goes to "/projects"; everything else
    passes through.
   */
  lemma DecideCases(pathname: string, search: string, hasSession: bool)
    ensures var protected := StartsWith(pathname, "/projects") || StartsWith(pathname, "/tasks");
            var auth := StartsWith(pathname, "/sign-in") || StartsWith(pathname, "/sign-up");
            var r := Decide(pathname, search, hasSession);
            && (r == Redirect("/sign-in", Some(pathname + search)) <==> protected && !hasSession)
            && (r == Redirect("/projects", None) <==> auth && hasSession)
            && (r == Next <==> (protected ==> hasSession) && (auth ==> !hasSession))
  {
    ProtectedIff(pathname);
    AuthIff(pathname);
    ProtectedAndAuthDisjoint(pathname);
  }

  /** A path that is neither protected nor an auth page passes through, with or without a session. */
  lemma UnclassifiedPassesThrough(pathname: string, search: string, hasSession: bool)
    requires !StartsWith(pathname, "/projects") && !StartsWith(pathname, "/tasks")
    requires !StartsWith(pathname, "/sign-in") && !StartsWith(pathname, "/sign-up")
    ensures Decide(pathname, search, hasSession) == Next
  {
    ProtectedIff(pathname);
    AuthIff(pathname);
  }

  /**
    No redirect loops: the page a redirect leads to is let through when it is
    requested with the same session state, whatever its query string.
   */
  lemma NoRedirectLoop(pathname: string, search: string, hasSession: bool, nextSearch: string)
    ensures var r := Decide(pathname, search, hasSession);
            r.Redirect? ==> Decide(r.path, nextSearch, hasSession) == Next
  {
    var r := Decide(pathname, search, hasSession);
    if r.Redirect? {
      ProtectedAndAuthDisjoint(r.path);
      if hasSession {
        assert StartsWith("/projects", ProtectedPaths[0]);
      } else {
        assert StartsWith("/sign-in", AuthPaths[0]);
      }
    }
  }
}
