/** The double-submit CSRF guard of the server: the `Cookie` header parser
    and the decision to let a request through or answer 403. */
module Csrf {
  import opened Common

  /** One `;` piece: trimmed, the name is the text before the first `=`, the
      value is everything after it (the rest re-joined with `=`). */
  function ParsePiece(cookie: string): (r: (string, string))
    ensures '=' !in r.0
    ensures '=' in Trim(cookie) ==> Trim(cookie) == r.0 + "=" + r.1
    ensures '=' !in Trim(cookie) ==> r == (Trim(cookie), "")
  {
    var t := Trim(cookie);
    var parts := Split(t, '=');
    JoinSplit(t, '=');
    if |parts| == 1 then (parts[0], "") else (parts[0], Join(parts[1..], '='))
  }

  /** Storing one parsed piece: a piece with an empty name is skipped. */
  function Store(cookies: map<string, string>, entry: (string, string)): map<string, string> {
    if |entry.0| == 0 then cookies else cookies[entry.0 := entry.1]
  }

  /** The cookies object after storing `entries` in order. */
  function CookiesOf(entries: seq<(string, string)>): map<string, string>
    decreases |entries|
  {
    if |entries| == 0 then map[] else Store(CookiesOf(entries[..|entries| - 1]), entries[|entries| - 1])
  }

  /** The header's `;` pieces, parsed; none for a missing or empty header. */
  function EntriesOf(header: Option<string>): (entries: seq<(string, string)>)
    ensures forall j :: 0 <= j < |entries| ==> '=' !in entries[j].0
  {
    var pieces := if header.None? || |header.value| == 0 then [] else Split(header.value, ';');
    seq(|pieces|, j requires 0 <= j < |pieces| => ParsePiece(pieces[j]))
  }

  /** A name is present exactly when some entry carries it, and its value is
      the one of the LAST such entry; the empty name never appears. */
  lemma {:induction false} LastPieceWins(entries: seq<(string, string)>, name: string)
    ensures name in CookiesOf(entries) <==>
      |name| > 0 && exists j :: 0 <= j < |entries| && entries[j].0 == name
    ensures name in CookiesOf(entries) ==>
      exists j :: 0 <= j < |entries| && entries[j] == (name, CookiesOf(entries)[name])
        && forall k :: j < k < |entries| ==> entries[k].0 != name
    decreases |entries|
  {
    if |entries| > 0 {
      var init := entries[..|entries| - 1];
      var last := entries[|entries| - 1];
      LastPieceWins(init, name);
      assert forall j :: 0 <= j < |init| ==> init[j] == entries[j];
      if last.0 == name && |name| > 0 {
        assert entries[|entries| - 1] == (name, CookiesOf(entries)[name]);
      } else {
        assert name in CookiesOf(entries) <==> name in CookiesOf(init);
        if name in CookiesOf(entries) {
          assert CookiesOf(entries)[name] == CookiesOf(init)[name];
          var j :| 0 <= j < |init| && init[j] == (name, CookiesOf(init)[name])
            && forall k :: j < k < |init| ==> init[k].0 != name;
          assert entries[j] == (name, CookiesOf(entries)[name]);
        }
        if |name| > 0 && (exists j :: 0 <= j < |entries| && entries[j].0 == name) {
          var j :| 0 <= j < |entries| && entries[j].0 == name;
          assert j < |init| && init[j].0 == name;
        }
      }
    }
  }

  /** `parseCookies`: `{}` for a missing or empty header; otherwise each piece
      is stored in turn, a later one overwriting an earlier one. */
  method ParseCookies(header: Option<string>) returns (cookies: map<string, string>)
    ensures cookies == CookiesOf(EntriesOf(header))
    ensures header.None? || |header.value| == 0 ==> cookies == map[]
  {
    if header.None? || |header.value| == 0 {
      return map[];
    }
    var pieces := Split(header.value, ';');
    ghost var entries := EntriesOf(header);
    assert |entries| == |pieces|;
    cookies := map[];
    var i := 0;
    while i < |pieces|
      invariant 0 <= i <= |pieces|
      invariant cookies == CookiesOf(entries[..i])
    {
      assert entries[..i + 1][..i] == entries[..i];
      assert entries[i] == ParsePiece(pieces[i]);
      cookies := Store(cookies, ParsePiece(pieces[i]));
      i := i + 1;
    }
    assert entries[..i] == entries;
  }

  function Cookie(cookies: map<string, string>, name: string): Option<string> {
    if name in cookies then Some(cookies[name]) else None
  }

  const SafeMethods: set<string> := {"GET", "HEAD", "OPTIONS"}

  datatype Request = Request(httpMethod: string, authorization: Option<string>, cookie: Option<string>,
                             csrfHeader: Option<string>)

  datatype Reply = Next | Forbidden

  /** `csrfProtection`: the request is refused exactly when it is not a safe
      method, carries no Authorization header, has a non-empty `auth_token`
      cookie, and does not present a non-empty `x-csrf-token` equal to the
      `csrf_token` cookie. */
  function CsrfProtection(req: Request): (r: Reply)
    ensures req.httpMethod in SafeMethods || Truthy(req.authorization) ==> r == Next
    ensures r == Forbidden <==> (req.httpMethod !in SafeMethods && !Truthy(req.authorization)
      && Truthy(Cookie(CookiesOf(EntriesOf(req.cookie)), "auth_token"))
      && !(Truthy(Cookie(CookiesOf(EntriesOf(req.cookie)), "csrf_token"))
           && Cookie(CookiesOf(EntriesOf(req.cookie)), "csrf_token") == req.csrfHeader))
  {
    if req.httpMethod in SafeMethods then Next
    else if Truthy(req.authorization) then Next
    else
      var cookies := CookiesOf(EntriesOf(req.cookie));
      if !Truthy(Cookie(cookies, "auth_token")) then Next
      else
        var csrfCookie := Cookie(cookies, "csrf_token");
        if !Truthy(csrfCookie) || !Truthy(req.csrfHeader) || csrfCookie != req.csrfHeader then Forbidden
        else Next
  }

  /** A cookie-authenticated state-changing request passes only when it
      echoes the CSRF cookie in the header. */
  lemma CookieAuthNeedsEcho(req: Request)
    requires req.httpMethod !in SafeMethods && !Truthy(req.authorization)
    requires Truthy(Cookie(CookiesOf(EntriesOf(req.cookie)), "auth_token"))
    requires CsrfProtection(req) == Next
    ensures Truthy(req.csrfHeader) && req.csrfHeader == Cookie(CookiesOf(EntriesOf(req.cookie)), "csrf_token")
  {
  }

  /** A request without any cookie header is never refused. */
  lemma NoCookieHeaderPasses(req: Request)
    requires req.cookie.None?
    ensures CsrfProtection(req) == Next
  {
  }
}
