/** The code exchange end to end: the browser's request body as the relay reads it, and the
    relay's reply as the browser reads it. */
module CodeExchange {
  import opened Js
  import Relay
  import StravaAuth

  /** How the browser sees a relay reply: `response.ok` is a 2xx status, and the JSON body the
      relay sent parses. */
  function AsSeenByBrowser(response: Relay.Response): StravaAuth.RelayReply
  {
    StravaAuth.Replied(200 <= response.status < 300, StravaAuth.Parsed(response.body))
  }

  /** The relay reads back exactly the code the browser sends, and accepts it when it has at
      least ten characters and the secret is configured. */
  lemma RelayReadsBrowserCode(code: string, secret: Option<string>)
    ensures var c := Relay.CheckCallback(Some(StravaAuth.ExchangeRequest(code)), secret);
      && (c.Accept? <==> |code| >= Relay.MIN_CODE_LENGTH && Relay.SecretConfigured(secret))
      && (c.Accept? ==> c.code == code)
      && (code == "" ==> c.response == Relay.Response(400, Relay.ErrorBody("Authorization code required")))
  {
  }

  /** A successful exchange through both halves: the relay records the code and returns
      Strava's payload with 200; the browser stores the token record and the marker, and is
      authenticated exactly until the token's expiry. */
  lemma {:induction false} ExchangeSucceeds(
    s: StravaAuth.AuthState, code: string, secret: Option<string>,
    payload: Json, accessToken: string, expiresAt: int, now: int)
    requires !s.inProgress && s.processedCode != Some(code)
    requires |code| >= Relay.MIN_CODE_LENGTH && Relay.SecretConfigured(secret)
    requires payload.JObj? && accessToken != ""
    requires Member(payload, "access_token") == Some(JStr(accessToken))
    requires Member(payload, "expires_at") == Some(JNum(expiresAt))
    ensures var r := Relay.Callback(Some(StravaAuth.ExchangeRequest(code)), secret, Relay.Ok(payload));
      && r.response == Relay.Response(200, payload)
      && r.recorded == Some(code)
      && var st := StravaAuth.Callback(s, code, AsSeenByBrowser(r.response));
      && st.completion == StravaAuth.Returned(Some(payload))
      && st.after.processedCode == Some(code)
      && (StravaAuth.Authenticated(st.after.tokenData, now) <==> now < expiresAt * 1000)
  {
    RelayReadsBrowserCode(code, secret);
    StravaAuth.AuthenticatedAfterExchange(s, code, payload, now);
  }

  /** When Strava refuses the code, the relay passes its status on, and the browser throws the
      relay's message and stores nothing. */
  lemma {:induction false} ExchangeRefused(
    s: StravaAuth.AuthState, code: string, secret: Option<string>, status: int, text: string)
    requires !s.inProgress && s.processedCode != Some(code)
    requires |code| >= Relay.MIN_CODE_LENGTH && Relay.SecretConfigured(secret)
    requires !(200 <= status < 300)
    ensures var r := Relay.Callback(Some(StravaAuth.ExchangeRequest(code)), secret, Relay.NotOk(status, text));
      && r.response.status == status && r.recorded.None?
      && var st := StravaAuth.Callback(s, code, AsSeenByBrowser(r.response));
      && st.completion == StravaAuth.Threw(StravaAuth.AuthError("Failed to exchange token with Strava"))
      && st.after == s
  {
    RelayReadsBrowserCode(code, secret);
  }
}
