/** The backend relay (src/server.js): the three handlers that talk to Strava, each an
    early-return decision chain over the request and the provider's reply, and the module-level
    `processedCodes` set that the code-exchange handler appends to and prunes.
    Strava's replies are inputs; the requests the relay would send are outputs. */
module Relay {
  import opened Js

  /** `String(STRAVA_CONFIG.clientId)`, the client id 168187 as the forms spell it. */
  const CLIENT_ID := "168187"
  const REDIRECT_URI := "http://localhost:5173"
  /** The shortest authorization code the callback handler accepts. */
  const MIN_CODE_LENGTH := 10
  /** `processedCodes` is pruned when it grows past this many entries ... */
  const MAX_CODES := 1000
  /** ... by deleting this many of its oldest entries. */
  const PRUNE_COUNT := 500

  const AUTH_FAILED := "Failed to authenticate with Strava"
  const ACTIVITY_FAILED := "Failed to fetch activity data from Strava"

  /** A reply the relay sends: an HTTP status and a JSON body. */
  datatype Response = Response(status: int, body: Json)

  /** What an outbound call to Strava gave back: a success status with its parsed JSON body, a
      failure status (never 2xx, since `response.ok` was false) with its text body, or an exception (the request failed, or its body could
      not be read or parsed). */
  datatype Fetched = Ok(payload: Json) | NotOk(status: int, text: string) | Threw

  /** The `{ error: message }` envelope. */
  function ErrorBody(message: string): Json
  {
    JObj(map["error" := JStr(message)])
  }

  // ---------------------------------------------------------------------------------------
  // POST /api/strava/callback: authorization-code exchange (section 4.1.3 of RFC 6749)

  datatype CodeCheck = Reject(response: Response) | Accept(code: string)

  predicate SecretConfigured(secret: Option<string>)
  {
    secret.Some? && secret.value != ""
  }

  /** The validation chain, in the order the handler runs it. Destructuring `code` out of an
      absent or null body throws, which the handler's `catch` turns into a 500. */
  function CheckCallback(body: Option<Json>, secret: Option<string>): (c: CodeCheck)
    ensures var field := Get(body, "code");
      c.Accept? <==>
        field.Read? && field.v.Some? && field.v.value.JStr? && |field.v.value.s| >= MIN_CODE_LENGTH
        && SecretConfigured(secret)
    ensures c.Accept? ==> Get(body, "code") == Read(Some(JStr(c.code)))
    ensures c.Reject? ==> c.response.status in {400, 500}
  {
    match Get(body, "code")
    case Throws => Reject(Response(500, ErrorBody(AUTH_FAILED)))
    case Read(code) =>
      if !Truthy(code) then Reject(Response(400, ErrorBody("Authorization code required")))
      else if !code.value.JStr? then Reject(Response(400, ErrorBody("Invalid authorization code format")))
      else if |code.value.s| < MIN_CODE_LENGTH then Reject(Response(400, ErrorBody("Authorization code too short")))
      else if !SecretConfigured(secret) then Reject(Response(500, ErrorBody("Server configuration error")))
      else Accept(code.value.s)
  }

  /** The form body of the token request; the client secret travels in the body
      (section 2.3.1 of RFC 6749). */
  function ExchangeForm(secret: string, code: string): SearchParams
  {
    [ ("client_id", CLIENT_ID),
      ("client_secret", secret),
      ("code", code),
      ("grant_type", "authorization_code"),
      ("redirect_uri", REDIRECT_URI) ]
  }

  /** The reply, the token request sent (if any), and the code to record as processed (if any). */
  datatype CallbackResult = CallbackResult(response: Response, sent: Option<SearchParams>, recorded: Option<string>)

  function Callback(body: Option<Json>, secret: Option<string>, reply: Fetched): CallbackResult
  {
    match CheckCallback(body, secret)
    case Reject(response) => CallbackResult(response, None, None)
    case Accept(code) =>
      var sent := Some(ExchangeForm(secret.value, code));
      match reply
      case Ok(tokenData) => CallbackResult(Response(200, tokenData), sent, Some(code))
      case NotOk(status, text) =>
        var envelope := JObj(map[
          "error" := JStr("Failed to exchange token with Strava"),
          "details" := JStr(text),
          "statusCode" := JNum(status)]);
        CallbackResult(Response(status, envelope), sent, None)
      case Threw => CallbackResult(Response(500, ErrorBody(AUTH_FAILED)), sent, None)
  }

  /** Each rejection, in order, with its status and message; none of them sends a request
      or records anything. */
  lemma CallbackRejections(body: Option<Json>, secret: Option<string>, reply: Fetched)
    ensures var r := Callback(body, secret, reply); var field := Get(body, "code");
      && (field.Throws? ==>
            r == CallbackResult(Response(500, ErrorBody(AUTH_FAILED)), None, None))
      && (field.Read? && !Truthy(field.v) ==>
            r == CallbackResult(Response(400, ErrorBody("Authorization code required")), None, None))
      && (field.Read? && Truthy(field.v) && !field.v.value.JStr? ==>
            r == CallbackResult(Response(400, ErrorBody("Invalid authorization code format")), None, None))
      && (field.Read? && field.v.Some? && field.v.value.JStr? && 0 < |field.v.value.s| < MIN_CODE_LENGTH ==>
            r == CallbackResult(Response(400, ErrorBody("Authorization code too short")), None, None))
      && (field.Read? && field.v.Some? && field.v.value.JStr? && |field.v.value.s| >= MIN_CODE_LENGTH
          && !SecretConfigured(secret) ==>
            r == CallbackResult(Response(500, ErrorBody("Server configuration error")), None, None))
  {
  }

  /** The token request carries the client id, the secret, the code,
      `grant_type=authorization_code` and the redirect URI, in that order. */
  lemma ExchangeFormFields(secret: string, code: string)
    ensures var form := ExchangeForm(secret, code);
      && ParamKeys(form) == ["client_id", "client_secret", "code", "grant_type", "redirect_uri"]
      && ParamGet(form, "client_id") == Some(CLIENT_ID)
      && ParamGet(form, "client_secret") == Some(secret)
      && ParamGet(form, "code") == Some(code)
      && ParamGet(form, "grant_type") == Some("authorization_code")
      && ParamGet(form, "redirect_uri") == Some(REDIRECT_URI)
  {
    var form := ExchangeForm(secret, code);
    assert ParamKeys(form) == ["client_id", "client_secret", "code", "grant_type", "redirect_uri"];
    assert ParamGet(form, "client_id") == Some(CLIENT_ID) by { ParamGetFirst(form, 0); }
    assert ParamGet(form, "client_secret") == Some(secret) by { ParamGetFirst(form, 1); }
    assert ParamGet(form, "code") == Some(code) by { ParamGetFirst(form, 2); }
    assert ParamGet(form, "grant_type") == Some("authorization_code") by { ParamGetFirst(form, 3); }
    assert ParamGet(form, "redirect_uri") == Some(REDIRECT_URI) by { ParamGetFirst(form, 4); }
  }

  /** A request goes out exactly when validation passes, and it is the token request for the
      validated code and the configured secret. */
  lemma CallbackExchangeRequest(body: Option<Json>, secret: Option<string>, reply: Fetched)
    ensures var r := Callback(body, secret, reply); var c := CheckCallback(body, secret);
      && (r.sent.Some? <==> c.Accept?)
      && (c.Accept? ==> r.sent == Some(ExchangeForm(secret.value, c.code)) && SecretConfigured(secret))
  {
  }

  /** Once the request has gone out: a success passes the payload through verbatim and records
      the code; a failure status is passed through with the error envelope and records nothing;
      an exception gives 500 and records nothing. */
  lemma CallbackOutcomes(body: Option<Json>, secret: Option<string>, reply: Fetched)
    requires CheckCallback(body, secret).Accept?
    ensures var r := Callback(body, secret, reply); var code := CheckCallback(body, secret).code;
      && (r.recorded.Some? <==> reply.Ok?)
      && (reply.Ok? ==> r.response == Response(200, reply.payload) && r.recorded == Some(code))
      && (reply.NotOk? ==>
            && r.response.status == reply.status
            && Member(r.response.body, "details") == Some(JStr(reply.text))
            && Member(r.response.body, "statusCode") == Some(JNum(reply.status))
            && Member(r.response.body, "error") == Some(JStr("Failed to exchange token with Strava")))
      && (reply.NotOk? && !(200 <= reply.status < 300) ==> !(200 <= r.response.status < 300))
      && (reply.Threw? ==> r.response == Response(500, ErrorBody(AUTH_FAILED)))
  {
  }

  // ---------------------------------------------------------------------------------------
  // The processed-codes set

  /** The set after `add(code)` and the prune that follows it: when the set has grown past
      MAX_CODES entries, its PRUNE_COUNT oldest entries (by insertion order) are deleted. */
  function Admit(codes: seq<string>, code: string): seq<string>
  {
    var added := SetAdd(codes, code);
    if |added| > MAX_CODES then added[PRUNE_COUNT..] else added
  }

  /** The cap: a set within the bound stays within it, stays free of repetitions, keeps the
      new code, and keeps the relative order of what it had. */
  lemma AdmitKeepsCap(codes: seq<string>, code: string)
    requires Distinct(codes) && |codes| <= MAX_CODES
    ensures var after := Admit(codes, code);
      && Distinct(after) && |after| <= MAX_CODES
      && code in after
      && (forall c :: c in after ==> c in codes || c == code)
      && (code in codes ==> after == codes)
      && (code !in codes ==> after == (codes + [code])[|codes| + 1 - |after|..])
  {
  }

  /** An insert that takes the set to MAX_CODES + 1 entries deletes the PRUNE_COUNT oldest and
      leaves 501. */
  lemma AdmitPrunesOldest(codes: seq<string>, code: string)
    requires Distinct(codes) && |codes| == MAX_CODES && code !in codes
    ensures Admit(codes, code) == codes[PRUNE_COUNT..] + [code]
    ensures |Admit(codes, code)| == MAX_CODES + 1 - PRUNE_COUNT
    ensures forall c :: c in codes[..PRUNE_COUNT] ==> c !in Admit(codes, code)
  {
    assert (codes + [code])[PRUNE_COUNT..] == codes[PRUNE_COUNT..] + [code];
  }

  /** Below the cap a new code is simply appended; re-adding a present code changes nothing. */
  lemma AdmitWithoutPrune(codes: seq<string>, code: string)
    requires |codes| <= MAX_CODES
    ensures code in codes ==> Admit(codes, code) == codes
    ensures code !in codes && |codes| < MAX_CODES ==> Admit(codes, code) == codes + [code]
  {
  }

  /** The relay process: its configured secret and the `processedCodes` set. No handler reads
      the set, so a code that was already processed is still sent to Strava. */
  class Relay {
    const clientSecret: Option<string>
    var processedCodes: seq<string>

    ghost predicate Valid()
      reads this
    {
      Distinct(processedCodes) && |processedCodes| <= MAX_CODES
    }

    constructor (clientSecret: Option<string>)
      ensures Valid()
      ensures this.clientSecret == clientSecret && processedCodes == []
    {
      this.clientSecret := clientSecret;
      processedCodes := [];
    }

    /** `processedCodes.add(code)`, then, past the cap, the oldest PRUNE_COUNT entries deleted
        one at a time as the source's `forEach` does. */
    method Remember(code: string)
      requires Valid()
      modifies this`processedCodes
      ensures Valid()
      ensures processedCodes == Admit(old(processedCodes), code)
    {
      processedCodes := SetAdd(processedCodes, code);
      if |processedCodes| > MAX_CODES {
        var values := processedCodes;
        var i := 0;
        while i < PRUNE_COUNT
          invariant 0 <= i <= PRUNE_COUNT
          invariant processedCodes == values[i..]
        {
          DeleteOldest(processedCodes);
          processedCodes := SetDelete(processedCodes, values[i]);
          i := i + 1;
        }
      }
    }

    /** POST /api/strava/callback. The reply and the set change as `Callback` says; neither the
        reply nor the request depends on what the set held before. */
    method PostCallback(body: Option<Json>, reply: Fetched) returns (response: Response, sent: Option<SearchParams>)
      requires Valid()
      modifies this`processedCodes
      ensures Valid()
      ensures var r := Callback(body, clientSecret, reply);
        && response == r.response && sent == r.sent
        && processedCodes == (if r.recorded.Some? then Admit(old(processedCodes), r.recorded.value)
                              else old(processedCodes))
    {
      var check := CheckCallback(body, clientSecret);
      if check.Reject? {
        return check.response, None;
      }
      var code := check.code;
      sent := Some(ExchangeForm(clientSecret.value, code));
      match reply {
        case NotOk(status, text) =>
          response := Response(status, JObj(map[
            "error" := JStr("Failed to exchange token with Strava"),
            "details" := JStr(text),
            "statusCode" := JNum(status)]));
        case Threw =>
          response := Response(500, ErrorBody(AUTH_FAILED));
        case Ok(tokenData) =>
          // recorded only once the payload has parsed
          Remember(code);
          response := Response(200, tokenData);
      }
    }
  }

  // ---------------------------------------------------------------------------------------
  // GET /api/strava/activities/last

  /** `authorization?.split(" ")[1]`, kept only when truthy. The scheme word is not checked. */
  function BearerToken(authorization: Option<string>): (token: Option<string>)
    ensures token.Some? ==> token.value != "" && ' ' !in token.value
  {
    if authorization.None? then None
    else
      var pieces := Split(authorization.value, ' ');
      if |pieces| < 2 || pieces[1] == "" then None else Some(pieces[1])
  }

  /** For `scheme token` with neither part holding a space, the token is extracted exactly
      (the bearer form of section 2.1 of RFC 6750); text after a further space is ignored. */
  lemma {:induction false} BearerTokenExtracted(scheme: string, token: string, rest: seq<string>)
    requires ' ' !in scheme && ' ' !in token && token != ""
    requires forall i :: 0 <= i < |rest| ==> ' ' !in rest[i]
    ensures BearerToken(Some(scheme + " " + token)) == Some(token)
    ensures BearerToken(Some(Join([scheme, token] + rest, ' '))) == Some(token)
  {
    SplitJoin([scheme, token], ' ');
    assert Join([scheme, token], ' ') == scheme + " " + token by {
      assert [scheme, token][1..] == [token];
    }
    SplitJoin([scheme, token] + rest, ' ');
  }

  /** A missing header, a header without a space, or an empty token (`"Bearer "`) is refused. */
  lemma {:induction false} BearerTokenMissing(scheme: string)
    requires ' ' !in scheme
    ensures BearerToken(None) == None
    ensures BearerToken(Some(scheme)) == None
    ensures BearerToken(Some(scheme + " ")) == None
  {
    SplitWord(scheme, ' ');
    SplitJoin([scheme, ""], ' ');
    assert Join([scheme, ""], ' ') == scheme + " " by {
      assert [scheme, ""][1..] == [""];
    }
  }

  /** An outbound call to the Strava API with the bearer token. */
  datatype ApiCall =
    | ListActivities(bearer: string, perPage: nat)
    | ActivityDetail(bearer: string, activityId: string, includeAllEfforts: bool)

  /** The reply and the calls made, in order. */
  datatype Proxied = Proxied(response: Response, calls: seq<ApiCall>)

  function LastActivity(authorization: Option<string>, list: Fetched, detail: Fetched): Proxied
  {
    match BearerToken(authorization)
    case None => Proxied(Response(401, ErrorBody("No authorization token provided")), [])
    case Some(token) =>
      var listCall := ListActivities(token, 1);
      var failed := Response(500, ErrorBody(ACTIVITY_FAILED));
      match list
      case Ok(activities) =>
        (match Get(Some(activities), "length")
         case Throws => Proxied(failed, [listCall])
         case Read(count) =>
           if !Truthy(count) then Proxied(Response(404, ErrorBody("No activities found")), [listCall])
           else
             // `activities[0].id` throws when the first entry is missing or null
             match Get(Member(activities, "0"), "id")
             case Throws => Proxied(failed, [listCall])
             case Read(id) =>
               var detailCall := ActivityDetail(token, PropString(id), true);
               match detail
               case Ok(activity) => Proxied(Response(200, activity), [listCall, detailCall])
               case _ => Proxied(failed, [listCall, detailCall]))
      case _ => Proxied(failed, [listCall])
  }

  /** Without a usable token the reply is 401 and Strava is not called. */
  lemma LastActivityUnauthorized(authorization: Option<string>, list: Fetched, detail: Fetched)
    requires BearerToken(authorization).None?
    ensures LastActivity(authorization, list, detail) ==
      Proxied(Response(401, ErrorBody("No authorization token provided")), [])
  {
  }

  /** With a token: an empty list gives 404 after the one list call; every failed call gives
      the fixed 500; a non-empty list leads to a detail call for the first activity's id with
      `include_all_efforts=true`, whose payload is passed through. */
  lemma {:induction false} LastActivityOutcomes(authorization: Option<string>, list: Fetched, detail: Fetched)
    requires BearerToken(authorization).Some?
    ensures var p := LastActivity(authorization, list, detail); var token := BearerToken(authorization).value;
      && |p.calls| >= 1 && p.calls[0] == ListActivities(token, 1)
      && (!list.Ok? ==> p == Proxied(Response(500, ErrorBody(ACTIVITY_FAILED)), [ListActivities(token, 1)]))
      && (list == Ok(JArr([])) ==>
            p == Proxied(Response(404, ErrorBody("No activities found")), [ListActivities(token, 1)]))
      && (forall first: Json, more: seq<Json> :: list == Ok(JArr([first] + more)) && first.JObj? ==>
            && |p.calls| == 2
            && p.calls[1] == ActivityDetail(token, PropString(Member(first, "id")), true)
            && p.response == (if detail.Ok? then Response(200, detail.payload)
                              else Response(500, ErrorBody(ACTIVITY_FAILED))))
  {
    forall first: Json, more: seq<Json> | list == Ok(JArr([first] + more)) && first.JObj?
      ensures Member(JArr([first] + more), "0") == Some(first)
    {
      ArrayIndexRead([first] + more, 0);
    }
  }

  // ---------------------------------------------------------------------------------------
  // POST /api/strava/refresh (section 6 of RFC 6749)

  /** The reply and the refresh request sent (if any). */
  datatype Handled = Handled(response: Response, sent: Option<SearchParams>)

  /** The secret as `String(clientSecret)` spells it: an unset secret is sent as "undefined",
      since this handler does not check it. */
  function SecretText(secret: Option<string>): string
  {
    if secret.None? then "undefined" else secret.value
  }

  function RefreshForm(secret: Option<string>, refreshToken: string): SearchParams
  {
    [ ("client_id", CLIENT_ID),
      ("client_secret", SecretText(secret)),
      ("refresh_token", refreshToken),
      ("grant_type", "refresh_token") ]
  }

  function Refresh(body: Option<Json>, secret: Option<string>, reply: Fetched): Handled
  {
    var refreshToken := OptionalGet(body, "refresh_token");
    if !Truthy(refreshToken) then Handled(Response(400, ErrorBody("No refresh token provided")), None)
    else
      var sent := Some(RefreshForm(secret, StringOf(refreshToken.value)));
      match reply
      case Ok(tokenData) => Handled(Response(200, tokenData), sent)
      case _ => Handled(Response(500, ErrorBody("Failed to refresh token")), sent)
  }

  /** The refresh request carries the client id, the secret's string form, the refresh token
      and `grant_type=refresh_token`, in that order. */
  lemma RefreshFormFields(secret: Option<string>, refreshToken: string)
    ensures var form := RefreshForm(secret, refreshToken);
      && ParamKeys(form) == ["client_id", "client_secret", "refresh_token", "grant_type"]
      && ParamGet(form, "client_id") == Some(CLIENT_ID)
      && ParamGet(form, "client_secret") == Some(if secret.Some? then secret.value else "undefined")
      && ParamGet(form, "refresh_token") == Some(refreshToken)
      && ParamGet(form, "grant_type") == Some("refresh_token")
  {
    var form := RefreshForm(secret, refreshToken);
    assert ParamKeys(form) == ["client_id", "client_secret", "refresh_token", "grant_type"];
    ParamGetFirst(form, 0);
    ParamGetFirst(form, 1);
    ParamGetFirst(form, 2);
    ParamGetFirst(form, 3);
  }

  /** A missing or falsy `refresh_token` (or no body at all) gives 400 with no request;
      otherwise the refresh request goes out, a success passes the payload through and any
      failure gives 500. */
  lemma RefreshOutcomes(body: Option<Json>, secret: Option<string>, reply: Fetched)
    ensures var h := Refresh(body, secret, reply); var rt := OptionalGet(body, "refresh_token");
      && (body.None? ==> h == Handled(Response(400, ErrorBody("No refresh token provided")), None))
      && (!Truthy(rt) <==> h.sent.None?)
      && (!Truthy(rt) ==> h.response == Response(400, ErrorBody("No refresh token provided")))
      && (Truthy(rt) ==>
            && h.sent == Some(RefreshForm(secret, StringOf(rt.value)))
            && h.response == (if reply.Ok? then Response(200, reply.payload)
                              else Response(500, ErrorBody("Failed to refresh token"))))
  {
  }
}
