/** The web client's route guard: protected pages need a signed-in, verified
    user; sign-in pages send a signed-in, verified user to the dashboard;
    every other page passes. The session check against the server
    (`/api/auth/me`) is an input. */
module RouteGuard {
  import opened Values

  const ProtectedPaths: seq<string> := ["/dashboard", "/profile", "/settings"]
  const AuthPaths: seq<string> := ["/login", "/register", "/verify-email"]

  /** `prefixes.some((p) => path.startsWith(p))`. */
  predicate StartsWithAny(path: string, prefixes: seq<string>)
  {
    exists i :: 0 <= i < |prefixes| && StartsWith(path, prefixes[i])
  }

  predicate IsProtected(path: string)
  {
    StartsWithAny(path, ProtectedPaths)
  }

  predicate IsAuthPath(path: string)
  {
    StartsWithAny(path, AuthPaths)
  }

  /** The session check: the server answered (`response.ok` and the user's
      `isVerified` flag, read only when the answer is ok), or the request or
      the reading of its body threw. */
  datatype SessionCheck = Answered(ok: bool, userVerified: bool) | Failed

  datatype Decision = Pass | Redirect(target: string)

  /** `isVerified`: only an authenticated session can be verified. */
  function Verified(check: SessionCheck): (v: bool)
    ensures v ==> check.Answered? && check.ok
  {
    check.Answered? && check.ok && check.userVerified
  }

  /** The middleware's answer for a request to `path`: pass it on, or
      redirect to the login page (a protected page without a session), the
      email check (a protected page of an unverified user) or the dashboard
      (a sign-in page of a verified, signed-in user). */
  function Decide(path: string, check: SessionCheck): (d: Decision)
    ensures d.Redirect? ==> d.target in {"/login", "/verify-email", "/dashboard"}
    ensures d == Redirect("/login") ==> IsProtected(path) && !(check.Answered? && check.ok)
    ensures d == Redirect("/verify-email") ==> IsProtected(path) && path != "/verify-email" && !Verified(check)
    ensures d == Redirect("/dashboard") ==> IsAuthPath(path) && Verified(check)
  {
    if !(IsProtected(path) || IsAuthPath(path)) then Pass
    else if check.Failed? then
      if IsProtected(path) then Redirect("/login") else Pass
    else if IsProtected(path) && !check.ok then Redirect("/login")
    else if IsProtected(path) && !Verified(check) && path != "/verify-email" then Redirect("/verify-email")
    else if IsAuthPath(path) && check.ok && Verified(check) then Redirect("/dashboard")
    else Pass
  }

  /** No path is both protected and a sign-in page. */
  lemma ClassesDisjoint(path: string)
    ensures !(IsProtected(path) && IsAuthPath(path))
  {
    forall i, j | 0 <= i < |ProtectedPaths| && 0 <= j < |AuthPaths|
      ensures !(StartsWith(path, ProtectedPaths[i]) && StartsWith(path, AuthPaths[j]))
    {
      SecondCharacterDiffers(path, ProtectedPaths[i], AuthPaths[j]);
    }
  }

  /** Two prefixes that differ in their second character cannot both begin a path. */
  lemma SecondCharacterDiffers(path: string, p: string, q: string)
    requires |p| >= 2 && |q| >= 2 && p[1] != q[1]
    ensures !(StartsWith(path, p) && StartsWith(path, q))
  {
    assert StartsWith(path, p) ==> path[1] == p[1];
    assert StartsWith(path, q) ==> path[1] == q[1];
  }

  /** Classification is by prefix, so a longer path counts too. */
  lemma PrefixClassification()
    ensures IsProtected("/dashboardx")
    ensures IsProtected("/settings/profile")
    ensures IsAuthPath("/login/reset")
    ensures !IsProtected("/") && !IsAuthPath("/")
  {
    assert StartsWith("/dashboardx", ProtectedPaths[0]);
    assert StartsWith("/settings/profile", ProtectedPaths[2]);
    assert StartsWith("/login/reset", AuthPaths[0]);
  }

  /** A page in neither class passes, whatever the session. */
  lemma UnclassifiedPathsPass(path: string, check: SessionCheck)
    requires !IsProtected(path) && !IsAuthPath(path)
    ensures Decide(path, check) == Pass
  {
  }

  /** A protected page is shown exactly to a signed-in, verified user; an
      unauthenticated or failed check goes to sign-in, an unverified user to
      email verification. */
  lemma ProtectedPageAccess(path: string, check: SessionCheck)
    requires IsProtected(path)
    ensures Decide(path, check) == Pass <==> Verified(check)
    ensures !Verified(check) && (check.Failed? || !check.ok) ==> Decide(path, check) == Redirect("/login")
    ensures check.Answered? && check.ok && !check.userVerified ==> Decide(path, check) == Redirect("/verify-email")
  {
    ClassesDisjoint(path);
    ProtectedIsNotVerifyEmail(path);
  }

  /** The `/verify-email` exemption never applies: that page is a sign-in
      page, not a protected one. */
  lemma ProtectedIsNotVerifyEmail(path: string)
    requires IsProtected(path)
    ensures path != "/verify-email"
  {
    ClassesDisjoint(path);
    if path == "/verify-email" {
      assert StartsWith(path, AuthPaths[2]);
    }
  }

  /** A sign-in page sends a signed-in, verified user to the dashboard and
      lets everyone else through, including when the check fails. */
  lemma AuthPageAccess(path: string, check: SessionCheck)
    requires IsAuthPath(path)
    ensures Verified(check) ==> Decide(path, check) == Redirect("/dashboard")
    ensures !Verified(check) ==> Decide(path, check) == Pass
  {
    ClassesDisjoint(path);
  }

  /** Following a redirect with the same session never redirects again:
      the guard cannot loop. */
  lemma NoRedirectLoop(path: string, check: SessionCheck)
    requires Decide(path, check).Redirect?
    ensures Decide(Decide(path, check).target, check) == Pass
  {
    ClassesDisjoint(path);
    var target := Decide(path, check).target;
    if target == "/login" {
      assert StartsWith(target, AuthPaths[0]);
      ClassesDisjoint(target);
    } else if target == "/verify-email" {
      assert StartsWith(target, AuthPaths[2]);
      ClassesDisjoint(target);
    } else {
      assert StartsWith(target, ProtectedPaths[0]);
      ProtectedPageAccess(target, check);
    }
  }
}
