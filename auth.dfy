/** The browser's auth service (frontend/src/services/stravaAuth.ts): the in-progress flag,
    the token record kept in local storage under "stravaTokenData" and the marker kept in
    session storage under "processedCode". The relay's reply to the code exchange is an input,
    the request the service would send an output, and "now" an integer in milliseconds. */
module StravaAuth {
  import opened Js

  const CLIENT_ID := "168187"
  const REDIRECT_URI := "http://localhost:5173"
  const SCOPE := "read,activity:read_all"
  const AUTHORIZE_ENDPOINT := "https://www.strava.com/oauth/authorize"
  const AUTH_FAILED := "Failed to authenticate with Strava"

  /** The four fields of the stored token record. */
  const TOKEN_KEYS: seq<string> := ["access_token", "refresh_token", "expires_at", "token_type"]

  /** A storage slot: no item, the empty text, text that `JSON.parse` rejects, or the text of a
      JSON value. */
  datatype Stored = Missing | EmptyText | Garbled | Holds(value: Json)

  /** The body of a reply, as `response.json()` reads it. */
  datatype Body = Parsed(json: Json) | Unparsable

  /** What the relay answered to the code exchange: nothing (the request failed), or a reply
      whose `ok` says whether its status was a success. */
  datatype RelayReply = RequestFailed | Replied(ok: bool, body: Body)

  /** What `handleCallback` throws. */
  datatype Failure = AuthError(message: string) | TypeError | SyntaxError | FetchError

  /** How a call of `handleCallback` completes; `Returned(None)` is a bare `return`. */
  datatype Completion = Returned(value: Option<Json>) | Threw(failure: Failure)

  /** The module flag and the two storage slots. */
  datatype AuthState = AuthState(inProgress: bool, tokenData: Stored, processedCode: Option<string>)

  /** The state after a call, how it completed, and the body of the request sent to the relay
      (if one was sent). */
  datatype Step = Step(after: AuthState, completion: Completion, request: Option<Json>)

  // ---------------------------------------------------------------------------------------
  // login

  /** Where `login` sends the browser: the authorize endpoint and its query
      (section 4.1.1 of RFC 6749), percent-encoding aside. */
  datatype Navigation = Navigation(endpoint: string, query: SearchParams)

  function AuthorizeQuery(): SearchParams
  {
    [ ("client_id", CLIENT_ID),
      ("redirect_uri", REDIRECT_URI),
      ("response_type", "code"),
      ("scope", SCOPE),
      ("approval_prompt", "auto") ]
  }

  /** The authorization request asks for a code, names the client and the redirect URI, and
      requests the scope, with the parameters in the order the source builds them. */
  lemma AuthorizeQueryFields()
    ensures var q := AuthorizeQuery();
      && ParamKeys(q) == ["client_id", "redirect_uri", "response_type", "scope", "approval_prompt"]
      && ParamGet(q, "response_type") == Some("code")
      && ParamGet(q, "client_id") == Some(CLIENT_ID)
      && ParamGet(q, "redirect_uri") == Some(REDIRECT_URI)
      && ParamGet(q, "scope") == Some("read,activity:read_all")
      && ParamGet(q, "approval_prompt") == Some("auto")
  {
    var q := AuthorizeQuery();
    assert ParamKeys(q) == ["client_id", "redirect_uri", "response_type", "scope", "approval_prompt"];
    ParamGetFirst(q, 0);
    ParamGetFirst(q, 1);
    ParamGetFirst(q, 2);
    ParamGetFirst(q, 3);
    ParamGetFirst(q, 4);
  }

  // ---------------------------------------------------------------------------------------
  // handleCallback

  /** The record stored after an exchange: `JSON.stringify` of the four fields read from the
      reply, where a field the reply lacks is left out. */
  function TokenRecord(data: Json): (record: Json)
    ensures record.JObj?
    ensures forall k :: k in record.fields ==> k in TOKEN_KEYS
    ensures forall k :: k in TOKEN_KEYS ==> Member(record, k) == Member(data, k)
  {
    JObj(map k | k in TOKEN_KEYS && Member(data, k).Some? :: Member(data, k).value)
  }

  /** The body of the request to the relay, `JSON.stringify({ code })`. */
  function ExchangeRequest(code: string): Json
  {
    JObj(map["code" := JStr(code)])
  }

  /** The error a non-ok reply turns into: its `error` field when truthy, else the fixed
      message (also when the body does not parse); reading a field of a `null` body throws. */
  function ErrorFrom(body: Body): Failure
  {
    match body
    case Unparsable => AuthError(AUTH_FAILED)
    case Parsed(errorData) =>
      match Get(Some(errorData), "error")
      case Throws => TypeError
      case Read(e) => AuthError(if Truthy(e) then StringOf(e.value) else AUTH_FAILED)
  }

  /** One call of `handleCallback(code)`, with its `finally` that clears the flag. */
  function Callback(s: AuthState, code: string, reply: RelayReply): Step
  {
    if s.inProgress then
      Step(s.(inProgress := false), Returned(None), None)
    else if s.processedCode == Some(code) && (s.tokenData.Garbled? || s.tokenData.Holds?) then
      // a non-empty stored text is reused: `JSON.parse` gives the record back or throws
      Step(s, if s.tokenData.Holds? then Returned(Some(s.tokenData.value)) else Threw(SyntaxError), None)
    else
      var request := Some(ExchangeRequest(code));
      match reply
      case RequestFailed => Step(s, Threw(FetchError), request)
      case Replied(false, body) => Step(s, Threw(ErrorFrom(body)), request)
      case Replied(true, Unparsable) => Step(s, Threw(SyntaxError), request)
      case Replied(true, Parsed(data)) =>
        if data.JNull? then Step(s, Threw(TypeError), request)
        else Step(AuthState(false, Holds(TokenRecord(data)), Some(code)), Returned(Some(data)), request)
  }

  /** Whatever happens, the flag is clear afterwards. */
  lemma CallbackClearsFlag(s: AuthState, code: string, reply: RelayReply)
    ensures !Callback(s, code, reply).after.inProgress
  {
  }

  /** With an exchange in progress the call returns nothing, sends nothing and leaves both
      storage slots alone. */
  lemma CallbackWhileInProgress(s: AuthState, code: string, reply: RelayReply)
    requires s.inProgress
    ensures Callback(s, code, reply) == Step(AuthState(false, s.tokenData, s.processedCode), Returned(None), None)
  {
  }

  /** The cache hit: a marker equal to the code and a stored record give that record back
      with no request and no change. A matching marker without a stored record falls
      through to an exchange. */
  lemma CallbackCacheHit(s: AuthState, code: string, reply: RelayReply)
    requires !s.inProgress && s.processedCode == Some(code)
    ensures s.tokenData.Holds? ==> Callback(s, code, reply) == Step(s, Returned(Some(s.tokenData.value)), None)
    ensures (s.tokenData.Missing? || s.tokenData.EmptyText?) ==>
      Callback(s, code, reply).request == Some(ExchangeRequest(code))
  {
  }

  /** Every failure leaves both storage slots as they were. */
  lemma CallbackFailureStoresNothing(s: AuthState, code: string, reply: RelayReply)
    ensures var st := Callback(s, code, reply);
      st.completion.Threw? ==> st.after.tokenData == s.tokenData && st.after.processedCode == s.processedCode
  {
  }

  /** A non-ok reply with an object body throws its `error` field's text when that is truthy,
      and the fixed message otherwise; an unparsable body gives the fixed message and a `null`
      body a TypeError. Nothing is stored. */
  lemma CallbackRejected(s: AuthState, code: string, errorData: Json)
    requires !s.inProgress && !(s.processedCode == Some(code) && (s.tokenData.Garbled? || s.tokenData.Holds?))
    requires errorData.JObj?
    ensures var st := Callback(s, code, Replied(false, Parsed(errorData)));
      && st.request == Some(ExchangeRequest(code))
      && st.after == s
      && ("error" in errorData.fields && Truthy(Some(errorData.fields["error"])) ==>
            st.completion == Threw(AuthError(StringOf(errorData.fields["error"]))))
      && (!("error" in errorData.fields && Truthy(Some(errorData.fields["error"]))) ==>
            st.completion == Threw(AuthError(AUTH_FAILED)))
    ensures Callback(s, code, Replied(false, Unparsable)).completion == Threw(AuthError(AUTH_FAILED))
    ensures Callback(s, code, Replied(false, Parsed(JNull))) == Step(s, Threw(TypeError), Some(ExchangeRequest(code)))
  {
  }

  /** On success the record holds exactly the four token fields of the reply, the marker is the
      code, and the whole reply is returned. */
  lemma CallbackSuccess(s: AuthState, code: string, data: Json)
    requires !s.inProgress && !(s.processedCode == Some(code) && (s.tokenData.Garbled? || s.tokenData.Holds?))
    requires !data.JNull?
    ensures var st := Callback(s, code, Replied(true, Parsed(data)));
      && st.request == Some(ExchangeRequest(code))
      && st.completion == Returned(Some(data))
      && st.after.processedCode == Some(code)
      && st.after.tokenData.Holds? && st.after.tokenData.value.JObj?
      && (forall k :: k in st.after.tokenData.value.fields ==> k in TOKEN_KEYS)
      && (forall k :: k in TOKEN_KEYS ==> Member(st.after.tokenData.value, k) == Member(data, k))
  {
  }

  /** The same code twice: the second call sends no request and returns the stored record. */
  lemma {:induction false} SameCodeExchangedOnce(s: AuthState, code: string, first: RelayReply, second: RelayReply)
    requires Callback(s, code, first).request.Some?
    requires Callback(s, code, first).completion.Returned?
    ensures var st1 := Callback(s, code, first); var st2 := Callback(st1.after, code, second);
      && st1.after.tokenData.Holds?
      && st2.request.None?
      && st2.after == st1.after
      && st2.completion == Returned(Some(st1.after.tokenData.value))
  {
  }

  // ---------------------------------------------------------------------------------------
  // isAuthenticated

  /** `JSON.parse(localStorage.getItem("stravaTokenData") || "{}")`, with `None` when the parse
      throws. */
  function ReadRecord(stored: Stored): (record: Option<Json>)
  {
    match stored
    case Missing => Some(JObj(map[]))
    case EmptyText => Some(JObj(map[]))
    case Garbled => None
    case Holds(j) => Some(j)
  }

  /** `isAuthenticated()` at time `now` (milliseconds): a truthy `access_token` and
      `now < expires_at * 1000`; a parse error or a read of a field of `null` gives false. */
  predicate Authenticated(stored: Stored, now: int)
  {
    match ReadRecord(stored)
    case None => false
    case Some(record) =>
      match Get(Some(record), "access_token")
      case Throws => false
      case Read(accessToken) =>
        Truthy(accessToken) &&
        match ToNumber(Member(record, "expires_at"))
        case NaN => false
        case Finite(expiresAt) => now < expiresAt * 1000
  }

  /** No record, an empty or unparsable text, or a missing or empty access token means not
      authenticated, whatever the time. */
  lemma NotAuthenticatedWithoutToken(stored: Stored, now: int)
    ensures (stored.Missing? || stored.EmptyText? || stored.Garbled?) ==> !Authenticated(stored, now)
    ensures stored.Holds? && stored.value.JObj? && !Truthy(Member(stored.value, "access_token")) ==>
      !Authenticated(stored, now)
  {
  }

  /** For a record with a non-empty access token and a numeric expiry, authentication holds
      exactly strictly before the expiry instant: false at `expires_at * 1000` itself. */
  lemma AuthenticatedUntilExpiry(accessToken: string, expiresAt: int, record: Json, now: int)
    requires record.JObj? && accessToken != ""
    requires Member(record, "access_token") == Some(JStr(accessToken))
    requires Member(record, "expires_at") == Some(JNum(expiresAt))
    ensures Authenticated(Holds(record), now) <==> now < expiresAt * 1000
    ensures !Authenticated(Holds(record), expiresAt * 1000)
  {
  }

  /** Once expired, always expired: authentication can only be lost as time passes. */
  lemma AuthenticationExpires(stored: Stored, earlier: int, later: int)
    requires earlier <= later && Authenticated(stored, later)
    ensures Authenticated(stored, earlier)
  {
  }

  /** After a successful exchange the client is authenticated exactly while the reply's
      `expires_at` (seconds) is later than now, provided the reply carried an access token. */
  lemma AuthenticatedAfterExchange(s: AuthState, code: string, data: Json, now: int)
    requires !s.inProgress && !(s.processedCode == Some(code) && (s.tokenData.Garbled? || s.tokenData.Holds?))
    requires data.JObj?
    ensures var after := Callback(s, code, Replied(true, Parsed(data))).after;
      Authenticated(after.tokenData, now) <==>
        Truthy(Member(data, "access_token")) &&
        ToNumber(Member(data, "expires_at")).Finite? &&
        now < ToNumber(Member(data, "expires_at")).value * 1000
  {
    var record := TokenRecord(data);
    assert Member(record, "access_token") == Member(data, "access_token");
    assert Member(record, "expires_at") == Member(data, "expires_at");
  }

  // ---------------------------------------------------------------------------------------
  // The service object

  /** The module-level flag and the two browser storage keys this service owns. */
  class AuthClient {
    var tokenExchangeInProgress: bool
    /** localStorage["stravaTokenData"] */
    var tokenData: Stored
    /** sessionStorage["processedCode"] */
    var processedCode: Option<string>

    function State(): AuthState
      reads this
    {
      AuthState(tokenExchangeInProgress, tokenData, processedCode)
    }

    /** A page load: the flag starts clear, the storage slots hold what they held. */
    constructor (tokenData: Stored, processedCode: Option<string>)
      ensures State() == AuthState(false, tokenData, processedCode)
    {
      tokenExchangeInProgress := false;
      this.tokenData := tokenData;
      this.processedCode := processedCode;
    }

    /** `login()`: removes the marker only, and names where the browser goes. */
    method Login() returns (target: Navigation)
      modifies this`processedCode
      ensures processedCode == None
      ensures target == Navigation(AUTHORIZE_ENDPOINT, AuthorizeQuery())
    {
      processedCode := None;
      target := Navigation(AUTHORIZE_ENDPOINT, AuthorizeQuery());
    }

    /** `handleCallback(code)`, proved against `Callback`. */
    method HandleCallback(code: string, reply: RelayReply) returns (completion: Completion, request: Option<Json>)
      modifies this
      ensures var st := Callback(old(State()), code, reply);
        State() == st.after && completion == st.completion && request == st.request
    {
      request := None;
      if tokenExchangeInProgress {
        tokenExchangeInProgress := false; // finally
        return Returned(None), None;
      }
      if processedCode == Some(code) && (tokenData.Garbled? || tokenData.Holds?) {
        completion := if tokenData.Holds? then Returned(Some(tokenData.value)) else Threw(SyntaxError);
        tokenExchangeInProgress := false; // finally
        return;
      }
      tokenExchangeInProgress := true;
      request := Some(ExchangeRequest(code));
      match reply {
        case RequestFailed =>
          completion := Threw(FetchError);
        case Replied(ok, body) =>
          if !ok {
            completion := Threw(ErrorFrom(body));
          } else if body.Unparsable? {
            completion := Threw(SyntaxError);
          } else if body.json.JNull? {
            completion := Threw(TypeError);
          } else {
            // the marker and the record are written only after the reply has been read
            processedCode := Some(code);
            tokenData := Holds(TokenRecord(body.json));
            completion := Returned(Some(body.json));
          }
      }
      tokenExchangeInProgress := false; // finally
    }

    /** `isAuthenticated()`: a pure read of the stored record. */
    predicate IsAuthenticated(now: int)
      reads this
    {
      Authenticated(tokenData, now)
    }

    /** `logout()`: removes both keys and touches nothing else. */
    method Logout()
      modifies this`tokenData, this`processedCode
      ensures tokenData == Missing && processedCode == None
      ensures forall now :: !IsAuthenticated(now)
    {
      tokenData := Missing;
      processedCode := None;
    }
  }

  /** After `login()` the marker is gone, so the next callback (with no exchange in progress)
      always goes to the relay. */
  lemma CallbackAfterLoginExchanges(s: AuthState, code: string, reply: RelayReply)
    requires !s.inProgress && s.processedCode == None
    ensures Callback(s, code, reply).request == Some(ExchangeRequest(code))
  {
  }
}
