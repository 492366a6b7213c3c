/**
 * `middleware.js`: the redirect decision taken on every page request the middleware's
 * matcher selects, from the request path and whether a session exists.
 */
module Middleware {

  /** What the middleware answers: a redirect to a path on the same site, or the request passed on. */
  datatype Decision = RedirectTo(target: string) | Next

  const LoginPath := "/login"
  const RegisterPath := "/register"
  const DashboardPath := "/dashboard"

  /** `s.startsWith(prefix)`. */
  predicate StartsWith(s: string, prefix: string)
  {
    |prefix| <= |s| && s[..|prefix|] == prefix
  }

  /**
   * `middleware(req)`: a dashboard path without a session goes to the login page; the
   * login or register page with a session goes to the dashboard; everything else passes.
   */
  function Decide(path: string, hasSession: bool): Decision
  {
    if StartsWith(path, DashboardPath) && !hasSession then RedirectTo(LoginPath)
    else if (path == LoginPath || path == RegisterPath) && hasSession then RedirectTo(DashboardPath)
    else Next
  }

  /** `config.matcher`: `/dashboard/:path*` (the dashboard and every path below it), `/login`, `/register`. */
  predicate Matched(path: string)
  {
    path == DashboardPath || StartsWith(path, DashboardPath + "/") || path == LoginPath || path == RegisterPath
  }

  /** A page request: the middleware decides on matched paths; every other path passes untouched. */
  function Handle(path: string, hasSession: bool): Decision
  {
    if Matched(path) then Decide(path, hasSession) else Next
  }

  /**
   * The three outcomes and exactly when each happens. The two redirect rules cannot both
   * apply, since one needs a session and the other needs none.
   */
  lemma DecideOutcomes(path: string, hasSession: bool)
    ensures Decide(path, hasSession) == RedirectTo(LoginPath) <==> StartsWith(path, DashboardPath) && !hasSession
    ensures Decide(path, hasSession) == RedirectTo(DashboardPath) <==>
              (path == LoginPath || path == RegisterPath) && hasSession
    ensures Decide(path, hasSession) == Next <==>
              !(StartsWith(path, DashboardPath) && !hasSession) && !((path == LoginPath || path == RegisterPath) && hasSession)
  {
  }

  /** A redirect never points back at the path that was requested. */
  lemma RedirectLeavesPath(path: string, hasSession: bool)
    ensures Decide(path, hasSession).RedirectTo? ==> Decide(path, hasSession).target != path
  {
    if Decide(path, hasSession) == RedirectTo(LoginPath) {
      assert !StartsWith(LoginPath, DashboardPath) by {
        assert LoginPath[1] != DashboardPath[1];
      }
    }
  }

  /** Following a redirect settles: the page redirected to, asked for with the same session, passes. */
  lemma RedirectSettles(path: string, hasSession: bool)
    requires Decide(path, hasSession).RedirectTo?
    ensures Handle(Decide(path, hasSession).target, hasSession) == Next
  {
    if hasSession {
      assert Decide(path, hasSession) == RedirectTo(DashboardPath);
      assert DashboardPath != LoginPath && DashboardPath != RegisterPath;
    } else {
      assert !StartsWith(LoginPath, DashboardPath) by {
        assert LoginPath[1] != DashboardPath[1];
      }
    }
  }

  /**
   * Without a session, a page request is sent to the login page exactly when it is the
   * dashboard or below it: a path such as `/dashboards` starts with `/dashboard` but the
   * matcher never hands it to the middleware.
   */
  lemma LoginRequiredExactlyUnderDashboard(path: string)
    ensures Handle(path, false) == RedirectTo(LoginPath) <==>
              path == DashboardPath || StartsWith(path, DashboardPath + "/")
  {
    if StartsWith(path, DashboardPath + "/") {
      assert path[..|DashboardPath|] == (DashboardPath + "/")[..|DashboardPath|];
    }
    if path == LoginPath || path == RegisterPath {
      assert !StartsWith(LoginPath, DashboardPath) by {
        assert LoginPath[1] != DashboardPath[1];
      }
      assert !StartsWith(RegisterPath, DashboardPath) by {
        assert RegisterPath[1] != DashboardPath[1];
      }
    }
  }
}
