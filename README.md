# Webhook verifier of the Zoom API binding

This project models the webhook trust boundary of a TypeScript binding for
the Zoom video-conferencing API. The module's default export is a factory. It
captures the client options (`ZoomOptions`) and returns two closures:

- `VerifyWebhookEvent` rebuilds the signed message
  `"v0:" + <x-zm-request-timestamp header> + ":" + JSON(event)`. It computes the
  HMAC-SHA256 of that message under the webhook secret as a hex string and adds
  the prefix `v0=`. It accepts the request exactly when the `x-zm-signature`
  header is strictly equal to that string.
- `GetEndpointValidationResponse` answers the platform's endpoint-ownership
  challenge. For an `endpoint.url_validation` event it returns the challenge
  token and the token's HMAC under the secret. For every other event it
  returns `null`.

Both closures throw `Missing webhookSecretToken` when the secret is falsy.
Before anything else is looked at, the secret is checked.

The model is pure. The events are a closed datatype with the thirteen members
of the `WebhookEvent` union. The headers are a map from names to optional
values. A thrown error is the `Failure` side of a `Result`, and `null` is
`None`. The foreign computations are fields of a `Primitives` record and are
left uninterpreted. Those computations are Node's HMAC-SHA256 hex digest and
`JSON.stringify`. The factory becomes `CreateWebhooks`, which returns the two
closures as function values. The operations themselves take the captured
options as an explicit first argument.

The properties are stated against the platform's side of the protocol. That
side is modelled by four definitions. `SignedMessage` and `Signature` give
what the platform signs. `SignedHeaders` gives the headers it sends with the
raw body it signed. `ChallengeAnswered` is how it checks a challenge
response. The authentication lemmas assume an idealised HMAC.
`MessageInjective` says that under one key, distinct messages give distinct
digests; a real HMAC has collisions, so this hypothesis stands in for
collision resistance. `KeyInjective` says that for one message, distinct keys
give distinct digests. That is stronger than anything a real HMAC offers,
because HMAC has equivalent keys (see "## Left out").

The model follows the code (`src/webhooks.ts`, and `src/common.ts` for
the options), including three of its behaviours that a reader might not expect:

- A secret that is the empty string counts as missing, just like an absent
  one (`!zoomApiOpts.webhookSecretToken`).
- The comparison is plain strict equality, not a constant-time one.
- `ZoomOptions` does not declare `webhookSecretToken`, but the verifier reads
  it. The model adds it as an optional field.

## Model

| member | source | states |
|---|---|---|
| Common.Falsy | src/webhooks.ts:108 | the guard `!zoomApiOpts.webhookSecretToken` (also line 124): a token passes exactly when it is present and non-empty |
| Webhooks.Event | src/webhooks.ts:39-100 | the `event` discriminator of each of the thirteen union members; it is `endpoint.url_validation` exactly when the event is the challenge variant, so the string test narrows the union |
| Webhooks.EventDiscriminatorsDistinct | src/webhooks.ts:39-100 | distinct members of the union carry distinct discriminators: equal `event` strings mean the same variant |
| Webhooks.Header | src/webhooks.ts:111 | reading a header (also line 117): a present key yields exactly the map's entry, and a missing key reads as `undefined` |
| Webhooks.Interpolate | src/webhooks.ts:111 | a header value inside the template literal renders as itself, and `undefined` renders as the text `undefined` |
| Webhooks.VerifyWebhookEvent | src/webhooks.ts:107-122 | a configuration error (`MissingWebhookSecretToken`) exactly when the secret is absent or empty, whatever the headers and event; without an `x-zm-signature` header the request is never accepted |
| Webhooks.GetEndpointValidationResponse | src/webhooks.ts:123-138 | a configuration error exactly when the secret is falsy, even for a non-validation event (secret checked before discriminator); otherwise `null` exactly for the twelve non-validation variants, and a response whose `plainToken` is the event's token unchanged |
| Webhooks.CreateWebhooks | src/webhooks.ts:106-144 | the two closures the factory returns behave, on every input, as the two operations applied to the captured options |
| WebhookProperties.SignedMessageLayout | src/webhooks.ts:111 | the signed message is `v0:`, then the timestamp, then one colon, then the serialized body, with length `|ts| + |body| + 4` |
| WebhookProperties.SignedMessageInjective | src/webhooks.ts:111 | the signed message determines timestamp and body when the timestamps have equal length or contain no colon |
| WebhookProperties.ColonInTimestampIsAmbiguous | src/webhooks.ts:111 | with a colon in the timestamp two different (timestamp, body) pairs give the same message |
| WebhookProperties.SignaturePrefixCancels | src/webhooks.ts:115 | two `v0=` signatures are equal only when their digests are |
| WebhookProperties.VerifyAcceptsExactlyTheSignature | src/webhooks.ts:111-121 | with a secret, the verdict is `true` iff the signature header equals `v0=` + HMAC(secret, signed message of the rendered timestamp and JSON body), and `false` otherwise |
| WebhookProperties.MissingTimestampSignsUndefined | src/webhooks.ts:111 | a missing timestamp header gives the same verdict as the header holding the literal text `undefined` |
| WebhookProperties.SignedRequestAccepted | src/webhooks.ts:111-118 | round trip: a request the platform signed with the configured secret is accepted, for every timestamp, provided the parsed event re-serializes to the raw body the platform signed |
| WebhookProperties.SignedRequestAcceptedIffSameSecret | src/webhooks.ts:113-121 | under a key-injective HMAC, a platform-signed request is accepted exactly when the platform's secret is the configured one |
| WebhookProperties.AcceptedSignatureMatchesMessage | src/webhooks.ts:111-121 | under a message-injective HMAC, a request carrying the signature of (timestamp, body) is accepted iff its own signed message equals the signed message of (timestamp, body), with no condition on the timestamps |
| WebhookProperties.AcceptedSignatureAuthenticates | src/webhooks.ts:111-121 | under a message-injective HMAC, when the rendered timestamp has the signed one's length (every one-character change, including one that introduces a colon) or neither contains a colon, a request carrying the signature of (timestamp, body) is accepted iff it renders that timestamp and serializes to that body, so a changed timestamp or body is rejected |
| WebhookProperties.VerifyReadsOnlySecretHeadersAndBody | src/webhooks.ts:106-122 | the verdict depends only on the secret, the two significant headers and the serialized event: other options and headers are irrelevant, and equal inputs give equal verdicts |
| WebhookProperties.ValidationResponseAnswersChallenge | src/webhooks.ts:130-137 | with a secret, a challenge with token `t` is answered with `{plainToken: t, encryptedToken: HMAC(secret, t)}` |
| WebhookProperties.ChallengeAnsweredIffSameSecret | src/webhooks.ts:130-137 | under a key-injective HMAC, the platform accepts the challenge response exactly when the configured secret is the platform's |
| WebhookProperties.ValidationReadsOnlySecretAndEvent | src/webhooks.ts:123-138 | the validation response depends on the options only through the secret |
| WebhookProperties.ValidationScenario | src/webhooks.ts:123-137 | secret `s3cr3t`, token `abc123`: the response is `{abc123, HMAC("s3cr3t", "abc123")}` |
| WebhookProperties.MeetingEndedScenario | src/webhooks.ts:107-121 | a correctly signed `meeting.ended` request is accepted, and the same headers with a body that serializes differently are rejected |

## Left out

- The internals of HMAC-SHA256 and hex encoding (Node's `crypto`): a foreign library, kept as the uninterpreted `Primitives.hmacSha256Hex`.
- The exact output of `JSON.stringify`: it depends on escaping and number formatting, so it is kept as the uninterpreted `Primitives.stringify`.
- Key order and undeclared body fields: an event value stands for the declared fields only, and `Primitives.stringify` is a function of that value. So two runtime bodies that differ only in property order or in fields the union does not declare (a top-level `event_ts`, say) are one model value with one serialization. The source signs and accepts both; the model can accept at most one of them. A change to the body is expressible only inside the declared fields.
- Case-insensitive header names and array-valued headers of Node's `IncomingHttpHeaders`: HTTP plumbing; the headers are a plain map from exact names to optional strings.
- The field-level shapes of `WebhookMeeting` and `WebhookWebinar`: they come from the `meetings` and `webinars` modules, which are not part of this model, so they are abstract types.
- The fields of `Registrant`: it is declared in `src/common.ts`, and it is left as an abstract type because the verifier reads none of its fields and only hands it to the serializer.
- Everything of `src/common.ts` except `ZoomOptions` and the abstract `Registrant`: declarations of API payload shapes with no behaviour. `tokenExpiresIn` keeps its `string | number` alternatives, with the number as an integer, since the verifier never reads it.
- Runtime values outside the declared union: a body whose `event` is some other string, or an `endpoint.url_validation` body without `payload.plainToken` (in JavaScript the latter throws a `TypeError`). The closed datatype excludes both.
- WebhookProperties.SignedRequestAccepted: the model has the platform sign a raw body, and the receiver verifies `JSON.stringify` of the parsed event; the round trip holds only when that re-serialization gives back the raw body byte for byte (same key order, whitespace, escapes and number forms), which the lemma takes as a hypothesis rather than proving.
- WebhookProperties.SignedRequestAcceptedIffSameSecret: its `KeyInjective` hypothesis also rules out HMAC's equivalent keys. HMAC-SHA256 pads a key shorter than 64 bytes with zero bytes, so `"s"` and `"s\u0000"` sign every message alike, and it replaces a key longer than 64 bytes by its SHA-256. With the real primitive, "accepted exactly when the secrets are equal" weakens to "exactly when the secrets are HMAC-equivalent".
- WebhookProperties.ChallengeAnsweredIffSameSecret: the same `KeyInjective` caveat. With the real primitive, the platform accepts a response computed under any key equivalent to its own.
- Constant-time comparison: the code uses plain `===`, so timing is not part of what it promises.
- Determinism has no lemma of its own. Dafny functions are deterministic by construction, and the options are immutable values, so repeated calls with equal inputs give equal results. The `...ReadsOnly...` lemmas state the stronger fact that results depend only on the secret and the significant inputs.
