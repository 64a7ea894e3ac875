/**
 * Logging in to the university portal: the login form, the session cookie and
 * the hidden anti-forgery fields scanned from the page returned after login
 * (src/pages/api/classEvents.ts).
 */
module PortalSession {
  import opened Base
  import opened Seqs
  import opened FormParams

  const CookieMarker: string := "JSESSIONID="

  /** The pattern `JSESSIONID=([^;]+)` can match starting at index `i` of `s`. */
  predicate MatchesAt(s: string, i: int)
  {
    OccursAt(s, CookieMarker, i) && i + |CookieMarker| < |s| && s[i + |CookieMarker|] != ';'
  }

  /** End of the longest run of characters other than `;` starting at `j`. */
  function RunEnd(s: string, j: nat): (k: nat)
    requires j <= |s|
    ensures j <= k <= |s|
    ensures forall t :: j <= t < k ==> s[t] != ';'
    ensures k == |s| || s[k] == ';'
    decreases |s| - j
  {
    if j == |s| || s[j] == ';' then j else RunEnd(s, j + 1)
  }

  /** The leftmost index at or after `from` where the pattern matches, if any. */
  function FirstMatch(s: string, from: nat): (r: Option<nat>)
    requires from <= |s|
    ensures r.Some? ==> from <= r.value < |s| && MatchesAt(s, r.value)
                        && forall i :: from <= i < r.value ==> !MatchesAt(s, i)
    ensures r.None? ==> forall i :: from <= i <= |s| ==> !MatchesAt(s, i)
    decreases |s| - from
  {
    if from == |s| then None
    else if MatchesAt(s, from) then Some(from)
    else FirstMatch(s, from + 1)
  }

  /**
   * `extractJSessionId`: the capture group of the leftmost match of
   * `JSESSIONID=([^;]+)` in the `Set-Cookie` header, or "" when the header is
   * absent or nothing matches.
   */
  function ExtractJSessionId(cookie: Option<string>): (r: string)
    ensures cookie.None? ==> r == ""
    ensures cookie.Some? ==> (r == "" <==> forall i :: 0 <= i <= |cookie.value| ==> !MatchesAt(cookie.value, i))
    ensures forall t :: 0 <= t < |r| ==> r[t] != ';'
    ensures r != "" ==>
      exists i :: 0 <= i < |cookie.value| && MatchesAt(cookie.value, i)
        && (forall j :: 0 <= j < i ==> !MatchesAt(cookie.value, j))
        && r == cookie.value[i + |CookieMarker|..RunEnd(cookie.value, i + |CookieMarker|)]
  {
    match cookie
    case None => ""
    case Some(s) =>
      match FirstMatch(s, 0)
      case None => ""
      case Some(i) =>
        var k := RunEnd(s, i + |CookieMarker|);
        assert k > i + |CookieMarker|;
        s[i + |CookieMarker|..k]
  }

  /** The run ends at `j + len` when `len` non-`;` characters are followed by `;` or the end. */
  lemma {:induction false} RunEndAt(s: string, j: nat, len: nat)
    requires j + len <= |s|
    requires forall t :: j <= t < j + len ==> s[t] != ';'
    requires j + len == |s| || s[j + len] == ';'
    ensures RunEnd(s, j) == j + len
    decreases len
  {
    if len > 0 {
      RunEndAt(s, j + 1, len - 1);
    }
  }

  /** A header that starts with the session cookie yields exactly its value. */
  lemma ExtractLeadingSessionId(id: string, rest: string)
    requires id != [] && forall t :: 0 <= t < |id| ==> id[t] != ';'
    requires rest == [] || rest[0] == ';'
    ensures ExtractJSessionId(Some(CookieMarker + id + rest)) == id
  {
    var s := CookieMarker + id + rest;
    var m := |CookieMarker|;
    assert s[..m] == CookieMarker;
    assert MatchesAt(s, 0);
    assert s[m..m + |id|] == id;
    RunEndAt(s, m, |id|);
  }

  /** The first twelve positions of `JSESSIONID=;...` hold no match. */
  lemma NoMatchInEmptyCookie(s: string, tail: string)
    requires s == CookieMarker + ";" + tail
    ensures forall i :: 0 <= i < |CookieMarker| + 1 ==> !MatchesAt(s, i)
  {
    var head := CookieMarker + ";";
    var m := |CookieMarker|;
    forall i | 0 <= i < |head| ensures !MatchesAt(s, i) {
      assert s[i] == head[i];
      if i == 0 {
        assert s[m] == ';';
      } else {
        assert head[i] != 'J';
        MatchStartsWithJ(s, i);
      }
    }
  }

  /** A match starts with the marker's first letter. */
  lemma MatchStartsWithJ(s: string, i: int)
    requires 0 <= i < |s|
    ensures MatchesAt(s, i) ==> s[i] == 'J'
  {
    if MatchesAt(s, i) {
      assert s[i..i + |CookieMarker|][0] == s[i];
    }
  }

  /**
   * A `JSESSIONID=` followed directly by `;` is not a match: the pattern moves
   * on and the value of a later occurrence is returned.
   */
  lemma EmptyValueIsSkipped(id: string, rest: string)
    requires id != [] && forall t :: 0 <= t < |id| ==> id[t] != ';'
    requires rest == [] || rest[0] == ';'
    ensures ExtractJSessionId(Some(CookieMarker + ";" + CookieMarker + id + rest)) == id
  {
    var tail := CookieMarker + id + rest;
    var s := CookieMarker + ";" + tail;
    assert s == CookieMarker + ";" + CookieMarker + id + rest;
    var m := |CookieMarker|;
    var n := m + 1;
    NoMatchInEmptyCookie(s, tail);
    assert s[n..n + m] == CookieMarker;
    assert MatchesAt(s, n);
    FirstMatchSkips(s, 0, n);
    assert s[n + m..n + m + |id|] == id;
    RunEndAt(s, n + m, |id|);
  }

  /** When nothing matches in `[from, n)` and `n` matches, the search stops at `n`. */
  lemma {:induction false} FirstMatchSkips(s: string, from: nat, n: nat)
    requires from <= n < |s| && MatchesAt(s, n)
    requires forall i :: from <= i < n ==> !MatchesAt(s, i)
    ensures FirstMatch(s, from) == Some(n)
    decreases n - from
  {
    if from < n {
      FirstMatchSkips(s, from + 1, n);
    }
  }

  const CookieTail: string := "; _ga = GA1.1.1861578561.1676779041; _ga_CNQG4KE1EB = GS1.1.1676779040.1.1.1676779053.47.0.0"
  const CookieHead: string := "HttpOnly; JSESSIONID = "

  /** `generateCookie`: the `Cookie` request header carrying the session id. */
  function GenerateCookie(sessionId: string): string
  {
    CookieHead + sessionId + CookieTail
  }

  /** The session id is recoverable from the cookie header, so distinct sessions give distinct headers. */
  lemma GenerateCookieInjective(a: string, b: string)
    requires GenerateCookie(a) == GenerateCookie(b)
    ensures a == b
  {
    var ca, cb := GenerateCookie(a), GenerateCookie(b);
    assert |a| == |b|;
    assert ca[|CookieHead|..|CookieHead| + |a|] == a;
    assert cb[|CookieHead|..|CookieHead| + |b|] == b;
  }

  /** One `<input>` element of the page returned after login. */
  datatype HtmlInput = HtmlInput(name: string, value: string)

  /** The value of the last input with this name, or "" when there is none. */
  function LastValue(inputs: seq<HtmlInput>, name: string): (r: string)
    ensures (forall i :: 0 <= i < |inputs| ==> inputs[i].name != name) ==> r == ""
    ensures (exists i :: 0 <= i < |inputs| && inputs[i].name == name) ==>
      exists i :: 0 <= i < |inputs| && inputs[i] == HtmlInput(name, r)
        && forall j :: i < j < |inputs| ==> inputs[j].name != name
  {
    if inputs == [] then ""
    else if inputs[|inputs| - 1].name == name then inputs[|inputs| - 1].value
    else
      var front := inputs[..|inputs| - 1];
      assert forall i :: 0 <= i < |front| ==> front[i] == inputs[i];
      LastValue(front, name)
  }

  /** The portal's answer to the login POST. */
  datatype LoginResponse = LoginResponse(status: int, setCookie: Option<string>, inputs: seq<HtmlInput>)

  /** `SessionData`: the four tokens every later portal request carries. */
  class SessionData {
    var jSessionId: string
    var rxLoginKey: string
    var rxToken: string
    var viewState: string

    constructor ()
      ensures jSessionId == "" && rxLoginKey == "" && rxToken == "" && viewState == ""
    {
      jSessionId, rxLoginKey, rxToken, viewState := "", "", "", "";
    }
  }

  const LoginFailed: string := "Login failed"

  /**
   * `getSessionData` after the login request: a status other than 200 throws
   * "Login failed"; otherwise the session id comes from the cookie and each
   * token holds the value of the last `<input>` bearing its name.
   */
  method GetSessionData(res: LoginResponse) returns (r: Result<SessionData, string>)
    ensures r.Err? <==> res.status != 200
    ensures r.Err? ==> r.error == LoginFailed
    ensures r.Ok? ==> fresh(r.value)
    ensures r.Ok? ==> r.value.jSessionId == ExtractJSessionId(res.setCookie)
    ensures r.Ok? ==> r.value.rxToken == LastValue(res.inputs, "rx-token")
    ensures r.Ok? ==> r.value.rxLoginKey == LastValue(res.inputs, "rx-loginKey")
    ensures r.Ok? ==> r.value.viewState == LastValue(res.inputs, "javax.faces.ViewState")
  {
    var session := new SessionData();
    if res.status != 200 {
      return Err(LoginFailed);
    }
    session.jSessionId := ExtractJSessionId(res.setCookie);
    var inputs := res.inputs;
    for i := 0 to |inputs|
      invariant session.jSessionId == ExtractJSessionId(res.setCookie)
      invariant session.rxToken == LastValue(inputs[..i], "rx-token")
      invariant session.rxLoginKey == LastValue(inputs[..i], "rx-loginKey")
      invariant session.viewState == LastValue(inputs[..i], "javax.faces.ViewState")
    {
      assert inputs[..i + 1][..i] == inputs[..i];
      var input := inputs[i];
      if input.name == "rx-token" { session.rxToken := input.value; }
      if input.name == "rx-loginKey" { session.rxLoginKey := input.value; }
      if input.name == "javax.faces.ViewState" { session.viewState := input.value; }
    }
    assert inputs[..|inputs|] == inputs;
    return Ok(session);
  }

  /** The login form, field by field, in submission order. */
  function LoginForm(username: string, password: string): seq<Pair>
  {
    [("loginForm", "loginForm"),
     ("loginForm:userId", username),
     ("loginForm:password", password),
     ("loginForm:loginButton", ""),
     ("javax.faces.ViewState", "stateless")]
  }

  /** `generateLoginBody`: appends the five login fields to a fresh parameter list. */
  method GenerateLoginBody(username: string, password: string) returns (body: seq<Pair>)
    ensures body == LoginForm(username, password)
  {
    var data := new SearchParams();
    data.Append("loginForm", "loginForm");
    data.Append("loginForm:userId", username);
    data.Append("loginForm:password", password);
    data.Append("loginForm:loginButton", "");
    data.Append("javax.faces.ViewState", "stateless");
    body := data.pairs;
  }

  /** The portal reading the login form sees the credentials and the stateless view marker. */
  lemma LoginFormReadsBack(username: string, password: string)
    ensures |LoginForm(username, password)| == 5
    ensures Get(LoginForm(username, password), "loginForm:userId") == Some(username)
    ensures Get(LoginForm(username, password), "loginForm:password") == Some(password)
  {
    var f := LoginForm(username, password);
    GetAt(f, 1);
    GetAt(f, 2);
  }

  /** The button and view-state fields carry their fixed values. */
  lemma LoginFormFixedFields(username: string, password: string)
    ensures Get(LoginForm(username, password), "loginForm:loginButton") == Some("")
    ensures Get(LoginForm(username, password), "javax.faces.ViewState") == Some("stateless")
  {
    var f := LoginForm(username, password);
    assert f[4].0[0] != f[3].0[0] && f[4].0[0] != f[0].0[0];
    GetAt(f, 3);
    GetAt(f, 4);
  }
}
