/** The HTTP session the client keeps: the headers it sends, the cookies it
    retains, and one request/response exchange through the transport. */
module Sessions {
  import opened Wrappers
  import opened Text
  import opened Json
  import opened Queries

  const CACHE_CONTROL: string := "Cache-Control"
  const CONTENT_TYPE: string := "Content-Type"
  const COOKIE: string := "Cookie"
  const AUTHORIZATION: string := "Authorization"
  const HTTP_OK: int := 200

  datatype Header = Header(name: string, value: string)

  /** getHttpHeaders: no-cache and JSON content, then the session cookies when
      any are held, otherwise Basic authentication with the stored credentials. */
  function Headers(cookies: Option<seq<string>>, authorization: Option<string>): (hs: seq<Header>)
    ensures |hs| >= 2 && hs[0] == Header(CACHE_CONTROL, "no-cache") && hs[1] == Header(CONTENT_TYPE, "application/json")
    ensures |hs| == 2 + (if cookies.Some? then |cookies.value| else 1)
  {
    var fixed := [Header(CACHE_CONTROL, "no-cache"), Header(CONTENT_TYPE, "application/json")];
    match cookies
    case Some(cs) => fixed + seq(|cs|, i requires 0 <= i < |cs| => Header(COOKIE, cs[i]))
    case None => fixed + [Header(AUTHORIZATION, "Basic " + NullText(authorization))]
  }

  /** The headers' shape: the two fixed headers first, then either one Cookie
      header per cookie, in order, or a single Basic Authorization header; an
      Authorization header is sent exactly when no cookies are held. */
  lemma HeadersShape(cookies: Option<seq<string>>, authorization: Option<string>)
    ensures var hs := Headers(cookies, authorization);
      cookies.Some? ==>
      |hs| == 2 + |cookies.value| && forall i :: 0 <= i < |cookies.value| ==> hs[2 + i] == Header(COOKIE, cookies.value[i])
    ensures var hs := Headers(cookies, authorization);
      cookies.None? ==> hs == hs[..2] + [Header(AUTHORIZATION, "Basic " + NullText(authorization))]
    ensures var hs := Headers(cookies, authorization);
      (exists i :: 0 <= i < |hs| && hs[i].name == AUTHORIZATION) <==> cookies.None?
    ensures var hs := Headers(cookies, authorization);
      cookies.None? ==> forall i :: 0 <= i < |hs| ==> hs[i].name != COOKIE
  {
    var hs := Headers(cookies, authorization);
    if cookies.Some? {
      assert forall i :: 0 <= i < |hs| ==> hs[i].name != AUTHORIZATION;
    } else {
      assert hs[2].name == AUTHORIZATION;
    }
  }

  /** setCookiesFromResponse: the cookies are replaced by the response's
      Set-Cookie values when the status is 200 OK and Set-Cookie is present. */
  function CookiesAfter(cookies: Option<seq<string>>, status: int, setCookie: Option<seq<string>>): (r: Option<seq<string>>)
    ensures status == HTTP_OK && setCookie.Some? ==> r == setCookie
    ensures !(status == HTTP_OK && setCookie.Some?) ==> r == cookies
  {
    if status == HTTP_OK && setCookie.Some? then setCookie else cookies
  }

  /** Once the client holds cookies it never falls back to Basic authentication. */
  lemma CookiesAreKept(cookies: Option<seq<string>>, status: int, setCookie: Option<seq<string>>,
                       authorization: Option<string>)
    requires cookies.Some?
    ensures CookiesAfter(cookies, status, setCookie).Some?
    ensures forall h :: h in Headers(CookiesAfter(cookies, status, setCookie), authorization) ==> h.name != AUTHORIZATION
  {
    var hs := Headers(CookiesAfter(cookies, status, setCookie), authorization);
    HeadersShape(CookiesAfter(cookies, status, setCookie), authorization);
    forall h | h in hs ensures h.name != AUTHORIZATION {
      var i :| 0 <= i < |hs| && hs[i] == h;
    }
  }

  /** After a 200 OK carrying Set-Cookie, the next request sends exactly those cookies. */
  lemma LoginSwitchesToCookies(cookies: Option<seq<string>>, setCookie: seq<string>, authorization: Option<string>)
    ensures Headers(CookiesAfter(cookies, HTTP_OK, Some(setCookie)), authorization)
      == [Header(CACHE_CONTROL, "no-cache"), Header(CONTENT_TYPE, "application/json")]
         + seq(|setCookie|, i requires 0 <= i < |setCookie| => Header(COOKIE, setCookie[i]))
  {
  }

  datatype HttpMethod = Get | Post

  /** One request: URL, verb, headers and the search posted with it, if any. */
  datatype Request = Request(url: string, verb: HttpMethod, headers: seq<Header>, payload: Option<Query>)

  /** What the transport returns: an exception, or a status, the Set-Cookie
      values and the body parsed as JSON (None when there is no body or it does not parse). */
  datatype Response = Failed | Response(status: int, setCookie: Option<seq<string>>, body: Option<Json>)

  /** The server as far as the client can tell. */
  type Transport = Request -> Response

  /** The client's session state: its fixed configuration, the workflow flag,
      the cookies, and every request sent so far. */
  datatype Session = Session(
    baseURL: Option<string>,
    authorization: Option<string>,
    workflowEnabled: bool,
    cookies: Option<seq<string>>,
    sent: seq<Request>)

  /** s' continues s: the base URL, the credentials and the workflow flag stay;
      only the cookies change and requests are added to the log. */
  predicate Continues(s: Session, s': Session) {
    s' == s.(cookies := s'.cookies, sent := s'.sent) && s.sent <= s'.sent
  }

  /** A result and the session it leaves behind. */
  datatype Outcome<T> = Outcome(result: Result<T>, after: Session)

  /** _makeRequest: send with the current headers, take the response's cookies,
      and return its body as a tree (null when there is none). */
  function Exchange(t: Transport, s: Session, url: string, verb: HttpMethod, payload: Option<Query>): (o: Outcome<Node>)
    ensures o.after.sent == s.sent + [Request(url, verb, Headers(s.cookies, s.authorization), payload)]
    ensures o.after == s.(cookies := o.after.cookies, sent := o.after.sent)
    ensures o.result.Err? ==> o.result.error == TransportFailure && o.after.cookies == s.cookies
    ensures var answer := t(Request(url, verb, Headers(s.cookies, s.authorization), payload));
      && (o.result.Err? <==> answer.Failed?)
      && (answer.Response? ==>
            && o.result == Ok(if answer.body.Some? then Present(answer.body.value) else NullRef)
            && o.after.cookies == CookiesAfter(s.cookies, answer.status, answer.setCookie))
  {
    var request := Request(url, verb, Headers(s.cookies, s.authorization), payload);
    var s' := s.(sent := s.sent + [request]);
    match t(request)
    case Failed => Outcome(Err(TransportFailure), s')
    case Response(status, setCookie, body) =>
      Outcome(Ok(if body.Some? then Present(body.value) else NullRef),
              s'.(cookies := CookiesAfter(s.cookies, status, setCookie)))
  }
}
