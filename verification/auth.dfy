/**
 * The API-key gate in front of the mutating routes (middleware/auth.js):
 * pick a header, drop an optional `Bearer ` prefix, compare with the secret.
 */
module Auth {
  import opened JsValues
  import opened Errors

  /** The two request headers the gate reads; `None` is a header that was not sent. */
  datatype Headers = Headers(xApiKey: Option<string>, authorization: Option<string>)

  const DefaultApiKey := "your-secret-api-key-123"
  const BearerPrefix := "Bearer "
  const MissingKeyMessage :=
    "API key is required." + " Please provide it in the x-api-key header or Authorization header."
  const InvalidKeyMessage := "Invalid API key provided."

  /** The secret: the `API_KEY` environment variable unless it is unset or empty. */
  function ExpectedKey(envApiKey: Option<string>): string {
    if PresentNonEmpty(envApiKey) then envApiKey.value else DefaultApiKey
  }

  /** `x-api-key || authorization`; `None` when what that yields is falsy. */
  function PresentedKey(h: Headers): Option<string> {
    if PresentNonEmpty(h.xApiKey) then h.xApiKey
    else if PresentNonEmpty(h.authorization) then h.authorization
    else None
  }

  /** Drops exactly one leading `"Bearer "`; any other value is kept as it is. */
  function StripBearer(s: string): string {
    if BearerPrefix <= s then s[|BearerPrefix|..] else s
  }

  /** `Pass` is the path that sets `req.authenticated = true` and calls `next()`. */
  function Authenticate(h: Headers, envApiKey: Option<string>): Check {
    match PresentedKey(h)
    case None => Fail(Authentication(MissingKeyMessage))
    case Some(k) =>
      if StripBearer(k) == ExpectedKey(envApiKey) then Pass else Fail(Authentication(InvalidKeyMessage))
  }

  /** The secret is never empty, and an environment value that is set and non-empty wins. */
  lemma ExpectedKeyChoice(envApiKey: Option<string>)
    ensures ExpectedKey(envApiKey) != ""
    ensures PresentNonEmpty(envApiKey) ==> ExpectedKey(envApiKey) == envApiKey.value
    ensures !PresentNonEmpty(envApiKey) ==> ExpectedKey(envApiKey) == "your-secret-api-key-123"
  {
  }

  /** A non-empty `x-api-key` hides `authorization`; an empty or missing one defers to it. */
  lemma HeaderPrecedence(x: Option<string>, a: Option<string>, envApiKey: Option<string>)
    ensures PresentNonEmpty(x) ==>
      Authenticate(Headers(x, a), envApiKey) == Authenticate(Headers(x, None), envApiKey)
    ensures !PresentNonEmpty(x) ==>
      Authenticate(Headers(x, a), envApiKey) == Authenticate(Headers(None, a), envApiKey)
  {
  }

  /** Every rejection is an authentication error, answered 401. */
  lemma RejectionsAre401(h: Headers, envApiKey: Option<string>)
    ensures Authenticate(h, envApiKey).Fail? ==>
      Authenticate(h, envApiKey).error.Authentication? && Authenticate(h, envApiKey).error.Status() == 401
  {
  }

  /** With neither header usable the request fails with the "API key is required." message. */
  lemma MissingKeyRejected(h: Headers, envApiKey: Option<string>)
    ensures !PresentNonEmpty(h.xApiKey) && !PresentNonEmpty(h.authorization) <==>
      Authenticate(h, envApiKey) == Fail(Authentication(MissingKeyMessage))
    ensures "API key is required." <= MissingKeyMessage
  {
  }

  /** The gate passes exactly when a key was presented and, prefix dropped, equals the secret. */
  lemma PassIffKeyMatches(h: Headers, envApiKey: Option<string>)
    ensures Authenticate(h, envApiKey) == Pass <==>
      PresentedKey(h).Some? && StripBearer(PresentedKey(h).value) == ExpectedKey(envApiKey)
    ensures PresentedKey(h).Some? && StripBearer(PresentedKey(h).value) != ExpectedKey(envApiKey) ==>
      Authenticate(h, envApiKey) == Fail(Authentication(InvalidKeyMessage))
  {
  }

  /**
   * `Bearer <secret>` is always accepted, in either header. The bare secret is
   * accepted unless the secret itself starts with `Bearer `, in which case the
   * gate strips it and the comparison fails.
   */
  lemma AcceptedForms(k: string, envApiKey: Option<string>)
    requires k == ExpectedKey(envApiKey)
    ensures Authenticate(Headers(Some(BearerPrefix + k), None), envApiKey) == Pass
    ensures Authenticate(Headers(None, Some(BearerPrefix + k)), envApiKey) == Pass
    ensures Authenticate(Headers(Some(k), None), envApiKey) == Pass <==> !(BearerPrefix <= k)
  {
    assert BearerPrefix <= BearerPrefix + k;
    assert (BearerPrefix + k)[|BearerPrefix|..] == k;
    if BearerPrefix <= k {
      assert |k[|BearerPrefix|..]| < |k|;
    }
  }
}
