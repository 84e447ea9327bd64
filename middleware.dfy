/** The request middleware: decides, from the path and the session token, whether a request
    passes untouched, is refused (401 for API paths, a redirect for pages), or is forwarded
    with the caller's identity headers. Token verification is an oracle. */
module Middleware {
  import opened Common

  /** The verified token's claims the middleware reads. */
  datatype Payload = Payload(userId: string, role: string, tokenType: Option<string>)

  datatype Decision =
    | PassThrough                           // NextResponse.next(), headers untouched
    | Unauthorized                          // 401 JSON
    | RedirectTo(location: string)          // redirect to a page
    | Forward(userId: string, role: string) // next() with x-user-id and x-user-role set

  const PublicRoutes: seq<string> := [
    "/", "/login", "/register",
    "/api/auth/check-email", "/api/auth/login", "/api/auth/register",
    "/api/auth/session", "/api/auth/logout",
    "/global.css", "/logo.ico"
  ]

  /** The only paths an onboarding token may reach, as prefixes. */
  const OnboardingPrefixes: seq<string> := ["/onboarding", "/api/auth/onboarding", "/api/subjects"]

  predicate IsPublic(path: string) {
    StartsWith(path, "/_next") || StartsWith(path, "/static") || StartsWith(path, "/public") ||
    path in PublicRoutes
  }

  predicate OnboardingAllowed(path: string) {
    exists i :: 0 <= i < |OnboardingPrefixes| && StartsWith(path, OnboardingPrefixes[i])
  }

  /** `header.split(" ")[1]`: the text between the first and the second space (or the end),
      absent when the header has no space. */
  function SecondField(header: string): (r: Option<string>)
    ensures r.None? <==> ' ' !in header
    ensures r.Some? ==> ' ' !in r.value
  {
    var i := IndexOf(header, ' ');
    if i < 0 then None
    else
      var rest := header[i + 1..];
      var j := IndexOf(rest, ' ');
      Some(if j < 0 then rest else rest[..j])
  }

  /** A `Bearer <token>` header yields the token, whatever follows a further space. */
  lemma BearerToken(scheme: string, token: string, tail: string)
    requires ' ' !in scheme && ' ' !in token
    ensures SecondField(scheme + " " + token) == Some(token)
    ensures SecondField(scheme + " " + token + " " + tail) == Some(token)
  {
    var h1 := scheme + " " + token;
    var h2 := scheme + " " + token + " " + tail;
    assert h1[|scheme|] == ' ' && h1[..|scheme|] == scheme;
    assert h2[|scheme|] == ' ' && h2[..|scheme|] == scheme;
    assert IndexOf(h1, ' ') == |scheme|;
    assert IndexOf(h2, ' ') == |scheme|;
    assert h1[|scheme| + 1..] == token;
    var rest2 := h2[|scheme| + 1..];
    assert rest2 == token + " " + tail;
    assert rest2[|token|] == ' ' && rest2[..|token|] == token;
    assert IndexOf(rest2, ' ') == |token|;
  }

  /** The session token: the `session_token` cookie when it is non-empty, else the second
      word of the `Authorization` header. */
  function Token(cookie: Option<string>, authorization: Option<string>): (r: Option<string>)
    ensures Present(cookie) ==> r == cookie
    ensures !Present(cookie) && authorization.None? ==> r.None?
    ensures !Present(cookie) && authorization.Some? ==> r == SecondField(authorization.value)
  {
    if Present(cookie) then cookie
    else if authorization.Some? then SecondField(authorization.value)
    else None
  }

  /** The refusal for a path: 401 for API paths, a redirect to `to` for pages. */
  function Refuse(path: string, to: string): (d: Decision)
    ensures d == Unauthorized <==> StartsWith(path, "/api")
    ensures d != Unauthorized ==> d == RedirectTo(to)
  {
    if StartsWith(path, "/api") then Unauthorized else RedirectTo(to)
  }

  /** `middleware(request)`; `verify` stands for `verifyJWT`. */
  function Decide(path: string, cookie: Option<string>, authorization: Option<string>,
                  verify: string -> Option<Payload>): (d: Decision)
    ensures IsPublic(path) <==> d == PassThrough
    ensures d == Unauthorized ==> StartsWith(path, "/api")
    ensures d.RedirectTo? ==> !StartsWith(path, "/api") && (d.location == "/login" || d.location == "/onboarding")
    ensures d.Forward? ==>
      var token := Token(cookie, authorization);
      Present(token) && verify(token.value).Some? &&
      d.userId == verify(token.value).value.userId && d.role == verify(token.value).value.role &&
      (verify(token.value).value.tokenType == Some("onboarding") ==> OnboardingAllowed(path))
  {
    if IsPublic(path) then PassThrough
    else
      var token := Token(cookie, authorization);
      if !Present(token) then Refuse(path, "/login")
      else
        var payload := verify(token.value);
        if payload.None? then Refuse(path, "/login")
        else if payload.value.tokenType == Some("onboarding") && !OnboardingAllowed(path) then
          Refuse(path, "/onboarding")
        else Forward(payload.value.userId, payload.value.role)
  }

  /** A token that fails verification is treated exactly like a missing token. */
  lemma InvalidTokenIsMissingToken(path: string, cookie: Option<string>, authorization: Option<string>,
                                   verify: string -> Option<Payload>)
    requires var token := Token(cookie, authorization); Present(token) && verify(token.value).None?
    ensures Decide(path, cookie, authorization, verify) == Decide(path, None, None, verify)
  {
  }

  /** An onboarding token outside the onboarding paths is refused: 401 on API paths, a
      redirect to `/onboarding` on pages. */
  lemma OnboardingTokenConfined(path: string, cookie: Option<string>, authorization: Option<string>,
                                verify: string -> Option<Payload>)
    requires !IsPublic(path) && !OnboardingAllowed(path)
    requires var token := Token(cookie, authorization);
      Present(token) && verify(token.value).Some? && verify(token.value).value.tokenType == Some("onboarding")
    ensures Decide(path, cookie, authorization, verify) == Refuse(path, "/onboarding")
  {
  }

  /** A request to a non-public path with a verified session token (not an onboarding
      token) is forwarded carrying the token's user id and role. */
  lemma VerifiedSessionForwarded(path: string, cookie: Option<string>, authorization: Option<string>,
                                 verify: string -> Option<Payload>)
    requires !IsPublic(path)
    requires var token := Token(cookie, authorization);
      Present(token) && verify(token.value).Some? && verify(token.value).value.tokenType != Some("onboarding")
    ensures var p := verify(Token(cookie, authorization).value).value;
      Decide(path, cookie, authorization, verify) == Forward(p.userId, p.role)
  {
  }

  /** A request to a non-public path without a token is refused: 401 on API paths, a
      redirect to `/login` on pages. */
  lemma MissingTokenRefused(path: string, cookie: Option<string>, authorization: Option<string>,
                            verify: string -> Option<Payload>)
    requires !IsPublic(path) && !Present(Token(cookie, authorization))
    ensures Decide(path, cookie, authorization, verify) == Refuse(path, "/login")
  {
  }

  /** An onboarding token on one of the onboarding paths is forwarded like any verified
      session, carrying the token's user id and role. */
  lemma OnboardingTokenForwarded(path: string, cookie: Option<string>, authorization: Option<string>,
                                 verify: string -> Option<Payload>)
    requires !IsPublic(path) && OnboardingAllowed(path)
    requires var token := Token(cookie, authorization);
      Present(token) && verify(token.value).Some? && verify(token.value).value.tokenType == Some("onboarding")
    ensures var p := verify(Token(cookie, authorization).value).value;
      Decide(path, cookie, authorization, verify) == Forward(p.userId, p.role)
  {
  }
}
