/** A login session: credentials, the `authed` flag, the user gate and the
    token refresh.  The requester, the last status and the parsed page that
    `refresh` consults are never assigned by the class itself, so they are
    given to the operations as parameters. */
module Sessions {
  import opened Prelude
  import opened Js
  import opened Numbers
  import opened Fetch

  /** A page as the session sees it: only its body matters here. */
  datatype Page = Page(body: string)

  const Landing := "https://archiveofourown.org"

  /** The page `refresh` asks for: the user's own page once authenticated,
      the landing page before. */
  function RefreshUrl(authed: bool, username: string): (url: string)
    ensures Landing <= url
    ensures authed ==> url[|Landing|..] == "/users/" + username
    ensures !authed ==> url == Landing
  {
    if authed then Landing + "/users/" + username else Landing
  }

  /** The outcome of `refresh` given what `get` did, the status it left and
      the token input found on the page (`None` for null). */
  function RefreshOutcome(fetched: Result<Page>, status: Prim, token: Option<string>): Outcome
  {
    if fetched.Err? then Fail(fetched.error)
    else if StrictEq(status, Number(Int(429))) then Fail(HTTPError(None))
    // the error class it names is not declared in the file
    else if token.None? then Fail(ReferenceError("UnexpectedResponseError"))
    else Pass
  }

  class Session {
    const username: string
    const password: string
    var authed: bool
    var loggedIn: Prim
    var authenticityToken: Option<string>

    /** A session that is neither authenticated nor logged in and holds no
        token. */
    constructor(username: string, password: string)
      ensures this.username == username && this.password == password
      ensures !authed && loggedIn == Undefined && authenticityToken.None?
    {
      this.username := username;
      this.password := password;
      authed := false;
      loggedIn := Undefined;
      authenticityToken := None;
    }

    /** The `user` getter: refused unless logged in; past the gate the User
        class is called without `new`, which throws. */
    function User(): (r: Result<string>)
      reads this
      ensures r.Err?
      ensures !Truthy(loggedIn) <==> r == Err(AuthError(None))
    {
      if !Truthy(loggedIn) then Err(AuthError(None)) else Err(TypeError)
    }

    /** `get`: exactly status 200 passes. */
    method Get(url: string, net: string -> Response<Page>) returns (r: Result<Page>)
      ensures r.Ok? <==> net(url).status == 200
      ensures r == AcceptOnly200(net(url))
    {
      var response := net(url);
      if response.status != 200 {
        return Err(HTTPError(Some(response.status)));
      }
      r := Ok(response.doc);
    }

    /** `request`: the page `get` accepted, and whether its length draws the
        warning; a long page is parsed all the same. */
    method Request(url: string, net: string -> Response<Page>) returns (r: Result<Page>, warned: bool)
      ensures r == AcceptOnly200(net(url))
      ensures warned <==> r.Ok? && WarnsLong(net(url))
    {
      r := Get(url, net);
      warned := r.Ok? && net(url).bodyLength > LongPage;
    }

    /** `refresh`: fetch the page that fits the `authed` flag, refuse a
        rate-limited status and a page without a token, else keep the
        token. */
    method Refresh(net: string -> Response<Page>, status: Prim, token: Option<string>) returns (o: Outcome)
      modifies this`authenticityToken
      ensures o == RefreshOutcome(AcceptOnly200(net(RefreshUrl(authed, username))), status, token)
      ensures o.Pass? ==> authenticityToken == token
      ensures o.Fail? ==> authenticityToken == old(authenticityToken)
    {
      var url := RefreshUrl(authed, username);
      var fetched := Get(url, net);
      if fetched.Err? {
        return Fail(fetched.error);
      }
      if StrictEq(status, Number(Int(429))) {
        return Fail(HTTPError(None));
      }
      if token.None? {
        return Fail(ReferenceError("UnexpectedResponseError"));
      }
      authenticityToken := token;
      o := Pass;
    }
  }

  // ---------------------------------------------------------------------
  // Properties

  /** A refresh succeeds exactly when the page came back with status 200,
      the status is not 429 and the page holds a token. */
  lemma RefreshPasses(fetched: Result<Page>, status: Prim, token: Option<string>)
    ensures RefreshOutcome(fetched, status, token).Pass? <==>
      fetched.Ok? && status != Number(Int(429)) && token.Some?
  {
  }

  /** Any status other than 200 stops a refresh with that status, before the
      rate-limit and token checks. */
  lemma RefreshRejectsNon200(r: Response<Page>, status: Prim, token: Option<string>)
    requires r.status != 200
    ensures RefreshOutcome(AcceptOnly200(r), status, token) == Fail(HTTPError(Some(r.status)))
  {
  }

  /** Only the number 429 counts as rate limiting: the string "429" does not. */
  lemma RateLimitIsStrict(page: Page, token: string)
    ensures RefreshOutcome(Ok(page), Number(Int(429)), Some(token)) == Fail(HTTPError(None))
    ensures RefreshOutcome(Ok(page), Str("429"), Some(token)) == Pass
  {
  }
}
