/** The side bar: which navigation link is highlighted for the current path,
    and the order of the effects of the logout button. */
module Sidebar {
  import opened Common
  import opened LoginPage

  /** The `href` of every navigation link, in menu order. */
  const NavItems: seq<string> := ["/dashboard", "/attendance", "/invoices", "/transactions",
                                  "/inventory", "/expenses", "/settings"]

  /** `pathname === href || pathname.startsWith(href + '/')`. */
  predicate IsActive(path: string, href: string) {
    path == href || StartsWith(path, href + "/")
  }

  /** The first segment of a path: the leading slash and everything up to the
      next slash. */
  function Segment(path: string): string
    requires path != [] && path[0] == '/'
  {
    "/" + UpToSlash(path[1..])
  }

  function UpToSlash(s: string): (r: string)
    ensures |r| <= |s| && r == s[..|r|] && '/' !in r
  {
    if s == [] || s[0] == '/' then "" else [s[0]] + UpToSlash(s[1..])
  }

  /** A link of one segment is active exactly when the path's first segment
      is the link: a deeper path under it counts, a longer name does not. */
  lemma ActiveIffSegment(path: string, w: string)
    requires '/' !in w
    ensures IsActive(path, "/" + w) <==> path != [] && path[0] == '/' && Segment(path) == "/" + w
  {
    if IsActive(path, "/" + w) {
      var rest := path[|w| + 1..];
      assert path == "/" + w + rest;
      assert rest == [] || rest[0] == '/';
      UpToSlashOf(w, rest);
      assert path[1..] == w + rest;
    }
    if path != [] && path[0] == '/' && Segment(path) == "/" + w {
      var u := UpToSlash(path[1..]);
      assert path[1..] == u + path[1..][|u|..];
      if |u| < |path[1..]| {
        UpToSlashStops(path[1..]);
        assert StartsWith(path, "/" + w + "/") by {
          assert (path)[..|w| + 2] == "/" + w + "/";
        }
      }
    }
  }

  /** Text without a slash, followed by nothing or by a slash, is read up to
      that point. */
  lemma {:induction false} UpToSlashOf(w: string, rest: string)
    requires '/' !in w && (rest == [] || rest[0] == '/')
    ensures UpToSlash(w + rest) == w
  {
    if w != [] {
      assert (w + rest)[0] == w[0] && (w + rest)[1..] == w[1..] + rest;
      UpToSlashOf(w[1..], rest);
    }
  }

  /** When the text goes on past the part read, the next character is a
      slash. */
  lemma {:induction false} UpToSlashStops(s: string)
    requires |UpToSlash(s)| < |s|
    ensures s[|UpToSlash(s)|] == '/'
  {
    if s != [] && s[0] != '/' {
      UpToSlashStops(s[1..]);
    }
  }

  /** A link of a single segment: a slash and a name without slashes. */
  predicate OneSegment(h: string) {
    |h| > 1 && h[0] == '/' && '/' !in h[1..]
  }

  /** Two one-segment links active on the same path are the same link. */
  lemma ActiveSegmentsEqual(path: string, h1: string, h2: string)
    requires OneSegment(h1) && OneSegment(h2) && IsActive(path, h1) && IsActive(path, h2)
    ensures h1 == h2
  {
    assert h1 == "/" + h1[1..] && h2 == "/" + h2[1..];
    ActiveIffSegment(path, h1[1..]);
    ActiveIffSegment(path, h2[1..]);
  }

  /** Every menu link is a single segment, and no two are the same. */
  lemma NavItemsShape()
    ensures forall i :: 0 <= i < |NavItems| ==> OneSegment(NavItems[i])
    ensures forall i, j :: 0 <= i < j < |NavItems| ==> NavItems[i] != NavItems[j]
  {
    forall i | 0 <= i < |NavItems|
      ensures OneSegment(NavItems[i])
    {
      var h := NavItems[i];
      assert forall k :: 1 <= k < |h| ==> 'a' <= h[k] <= 'z';
    }
    forall i, j | 0 <= i < j < |NavItems|
      ensures NavItems[i] != NavItems[j]
    {
      if i == 2 && j == 4 {
        assert NavItems[i][4] != NavItems[j][4];
      } else {
        assert NavItems[i][1] != NavItems[j][1];
      }
    }
  }

  /** At most one link is highlighted, whatever the path. */
  lemma AtMostOneActive(path: string, i: nat, j: nat)
    requires i < |NavItems| && j < |NavItems|
    requires IsActive(path, NavItems[i]) && IsActive(path, NavItems[j])
    ensures i == j
  {
    NavItemsShape();
    ActiveSegmentsEqual(path, NavItems[i], NavItems[j]);
  }

  /** `/invoices` and `/invoices/42` highlight Invoices; `/invoicesX` does
      not. */
  lemma InvoicesExamples()
    ensures IsActive("/invoices", "/invoices")
    ensures IsActive("/invoices/42", "/invoices")
    ensures !IsActive("/invoicesX", "/invoices")
  {
    assert "/invoices/42"[..|"/invoices/"|] == "/invoices/";
    assert "/invoicesX"[9] != "/invoices/"[9];
  }

  /** The effects of the logout button, in order. `logout()` only starts
      Firebase's sign-out and does not wait for it, so the first effect is a
      request; the store drops the session later, when its auth listener
      reports that no user is signed in. */
  datatype Effect = RequestSignOut | Navigate(to: string) | CloseMenu

  function LogoutEffects(): (r: seq<Effect>)
    ensures |r| == 3 && r[0] == RequestSignOut && r[1] == Navigate("/") && r[2] == CloseMenu
  {
    [RequestSignOut, Navigate("/"), CloseMenu]
  }

  /** What the effects act on: whether the store still holds a user, whether
      a sign-out is in flight, the current path, and whether the mobile menu
      is open. */
  datatype Screen = Screen(signedIn: bool, signingOut: bool, path: string, menuOpen: bool)

  function ApplyEffect(u: Screen, e: Effect): Screen {
    match e
    case RequestSignOut => u.(signingOut := true)
    case Navigate(to) => u.(path := to)
    case CloseMenu => u.(menuOpen := false)
  }

  function ApplyEffects(u: Screen, es: seq<Effect>): Screen
    decreases |es|
  {
    if es == [] then u else ApplyEffects(ApplyEffect(u, es[0]), es[1..])
  }

  /** The auth listener reporting no user: the store clears the session. */
  function AuthSignedOut(u: Screen): Screen {
    u.(signedIn := false, signingOut := false)
  }

  /** The click alone does not end the session: after every prefix of its
      effects the store holds the user it held before, and once they are done
      the screen is on `/` with the menu closed and the sign-out in flight.
      So a signed-in user reaches `/` still signed in, and the sign-in page,
      once ready, sends them on to the dashboard until the listener fires. */
  lemma LogoutClickKeepsSession(u: Screen)
    ensures forall k :: 0 <= k <= |LogoutEffects()| ==> ApplyEffects(u, LogoutEffects()[..k]).signedIn == u.signedIn
    ensures ApplyEffects(u, LogoutEffects()) == Screen(u.signedIn, true, "/", false)
    ensures u.signedIn ==> AuthRedirect(true, ApplyEffects(u, LogoutEffects()).signedIn) == Some(Dashboard)
  {
    var r := LogoutEffects();
    assert r[..0] == [] && r[..1] == [RequestSignOut] && r[..2] == [RequestSignOut, Navigate("/")] && r[..3] == r;
    assert [RequestSignOut][1..] == [] && [RequestSignOut, Navigate("/")][1..] == [Navigate("/")];
    assert r[1..] == [Navigate("/"), CloseMenu] && r[1..][1..] == [CloseMenu];
  }

  /** Once the listener reports no user, logout has ended signed out on `/`
      with the menu closed and nothing in flight, and the sign-in page no
      longer redirects. */
  lemma LogoutSettlesSignedOut(u: Screen)
    ensures var v := AuthSignedOut(ApplyEffects(u, LogoutEffects()));
            && v == Screen(false, false, "/", false)
            && AuthRedirect(true, v.signedIn).None?
  {
    LogoutClickKeepsSession(u);
  }
}
