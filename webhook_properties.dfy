/** What the webhook verifier promises, stated against the platform's side of
    the protocol: the message it signs, the headers it sends and the check it
    makes of a challenge response. */
module WebhookProperties {
  import opened Wrappers
  import opened Common
  import opened Webhooks

  // ---------------------------------------------------------------------------
  // The platform's side of the protocol.
  // ---------------------------------------------------------------------------

  /** The message the platform signs: version, timestamp and body, separated by colons. */
  function SignedMessage(timestamp: string, body: string): string
  {
    "v0:" + timestamp + ":" + body
  }

  /** The signature header value for a timestamp and a serialized body. */
  function Signature(crypto: Primitives, secret: string, timestamp: string, body: string): string
  {
    "v0=" + crypto.hmacSha256Hex(secret, SignedMessage(timestamp, body))
  }

  /** The headers the platform sends with the raw request body `rawBody` it
      signed at `timestamp`. */
  function SignedHeaders(crypto: Primitives, secret: string, timestamp: string, rawBody: string): Headers
  {
    map[TimestampHeader := Some(timestamp),
        SignatureHeader := Some(Signature(crypto, secret, timestamp, rawBody))]
  }

  /** The platform's check of a challenge response. */
  predicate ChallengeAnswered(crypto: Primitives, secret: string, plainToken: string,
                              response: EndpointValidationResponse)
  {
    response.plainToken == plainToken
    && response.encryptedToken == crypto.hmacSha256Hex(secret, plainToken)
  }

  /** Idealised HMAC: under one key, distinct messages have distinct digests. */
  ghost predicate MessageInjective(crypto: Primitives, secret: string)
  {
    forall m1, m2 :: crypto.hmacSha256Hex(secret, m1) == crypto.hmacSha256Hex(secret, m2) ==> m1 == m2
  }

  /** Idealised HMAC: for one message, distinct keys give distinct digests. */
  ghost predicate KeyInjective(crypto: Primitives)
  {
    forall k1, k2, m :: crypto.hmacSha256Hex(k1, m) == crypto.hmacSha256Hex(k2, m) ==> k1 == k2
  }

  // ---------------------------------------------------------------------------
  // The signed message.
  // ---------------------------------------------------------------------------

  /** Character layout of the signed message: "v0:", the timestamp, one colon, the body. */
  lemma SignedMessageLayout(timestamp: string, body: string)
    ensures |SignedMessage(timestamp, body)| == |timestamp| + |body| + 4
    ensures SignedMessage(timestamp, body)[..3] == "v0:"
    ensures SignedMessage(timestamp, body)[3..3 + |timestamp|] == timestamp
    ensures SignedMessage(timestamp, body)[3 + |timestamp|] == ':'
    ensures SignedMessage(timestamp, body)[4 + |timestamp|..] == body
  {
  }

  /** The message determines its timestamp and body when the timestamps have
      the same length or contain no colon (a Unix timestamp never does). */
  lemma {:induction false} SignedMessageInjective(ts1: string, body1: string, ts2: string, body2: string)
    requires |ts1| == |ts2| || (':' !in ts1 && ':' !in ts2)
    requires SignedMessage(ts1, body1) == SignedMessage(ts2, body2)
    ensures ts1 == ts2 && body1 == body2
  {
    SignedMessageLayout(ts1, body1);
    SignedMessageLayout(ts2, body2);
  }

  /** Without the colon-free condition the framing is ambiguous. */
  lemma ColonInTimestampIsAmbiguous()
    ensures SignedMessage("1:2", "x") == SignedMessage("1", "2:x")
  {
  }

  lemma SignaturePrefixCancels(digest1: string, digest2: string)
    requires "v0=" + digest1 == "v0=" + digest2
    ensures digest1 == digest2
  {
    assert digest1 == ("v0=" + digest1)[3..];
  }

  // ---------------------------------------------------------------------------
  // VerifyWebhookEvent.
  // ---------------------------------------------------------------------------

  /** With a secret, a request is accepted exactly when its signature header
      is the signature of its rendered timestamp and its serialized body. */
  lemma VerifyAcceptsExactlyTheSignature(
    zoomApiOpts: ZoomOptions, crypto: Primitives, params: VerifyWebhookEventParams)
    requires !Falsy(zoomApiOpts.webhookSecretToken)
    ensures VerifyWebhookEvent(zoomApiOpts, crypto, params)
            == Success(Header(params.headers, SignatureHeader)
                       == Some(Signature(crypto, zoomApiOpts.webhookSecretToken.value,
                                         Interpolate(Header(params.headers, TimestampHeader)),
                                         crypto.stringify(params.webhook))))
  {
  }

  /** A missing timestamp header is signed as the text "undefined". */
  lemma MissingTimestampSignsUndefined(
    zoomApiOpts: ZoomOptions, crypto: Primitives, headers: Headers, webhook: WebhookEvent)
    requires Header(headers, TimestampHeader).None?
    ensures VerifyWebhookEvent(zoomApiOpts, crypto, VerifyWebhookEventParams(headers, webhook))
            == VerifyWebhookEvent(zoomApiOpts, crypto,
                 VerifyWebhookEventParams(headers[TimestampHeader := Some("undefined")], webhook))
  {
    var stamped := headers[TimestampHeader := Some("undefined")];
    assert Header(stamped, SignatureHeader) == Header(headers, SignatureHeader);
  }

  /** Round trip: a request the platform signed with the configured secret is
      accepted, provided the receiver re-serializes the parsed event to the
      very body the platform signed. */
  lemma SignedRequestAccepted(
    zoomApiOpts: ZoomOptions, crypto: Primitives, timestamp: string, rawBody: string,
    webhook: WebhookEvent)
    requires !Falsy(zoomApiOpts.webhookSecretToken)
    requires crypto.stringify(webhook) == rawBody
    ensures VerifyWebhookEvent(zoomApiOpts, crypto,
              VerifyWebhookEventParams(
                SignedHeaders(crypto, zoomApiOpts.webhookSecretToken.value, timestamp, rawBody),
                webhook))
            == Success(true)
  {
  }

  /** With an idealised HMAC, a request signed with another secret is rejected. */
  lemma SignedRequestAcceptedIffSameSecret(
    zoomApiOpts: ZoomOptions, crypto: Primitives, platformSecret: string,
    timestamp: string, rawBody: string, webhook: WebhookEvent)
    requires !Falsy(zoomApiOpts.webhookSecretToken)
    requires KeyInjective(crypto)
    requires crypto.stringify(webhook) == rawBody
    ensures VerifyWebhookEvent(zoomApiOpts, crypto,
              VerifyWebhookEventParams(SignedHeaders(crypto, platformSecret, timestamp, rawBody), webhook))
            == Success(zoomApiOpts.webhookSecretToken.value == platformSecret)
  {
    var secret := zoomApiOpts.webhookSecretToken.value;
    var body := rawBody;
    var headers := SignedHeaders(crypto, platformSecret, timestamp, rawBody);
    VerifyAcceptsExactlyTheSignature(zoomApiOpts, crypto, VerifyWebhookEventParams(headers, webhook));
    if Signature(crypto, secret, timestamp, body) == Signature(crypto, platformSecret, timestamp, body) {
      SignaturePrefixCancels(
        crypto.hmacSha256Hex(secret, SignedMessage(timestamp, body)),
        crypto.hmacSha256Hex(platformSecret, SignedMessage(timestamp, body)));
    }
  }

  /** A genuine signature authenticates its message: with an idealised HMAC,
      a request that carries the signature of `timestamp` and `body` is
      accepted exactly when its own signed message is that message. */
  lemma AcceptedSignatureMatchesMessage(
    zoomApiOpts: ZoomOptions, crypto: Primitives, params: VerifyWebhookEventParams,
    timestamp: string, body: string)
    requires !Falsy(zoomApiOpts.webhookSecretToken)
    requires MessageInjective(crypto, zoomApiOpts.webhookSecretToken.value)
    requires Header(params.headers, SignatureHeader)
             == Some(Signature(crypto, zoomApiOpts.webhookSecretToken.value, timestamp, body))
    ensures VerifyWebhookEvent(zoomApiOpts, crypto, params) == Success(true)
            <==> SignedMessage(Interpolate(Header(params.headers, TimestampHeader)),
                               crypto.stringify(params.webhook))
                 == SignedMessage(timestamp, body)
  {
    var secret := zoomApiOpts.webhookSecretToken.value;
    var ts := Interpolate(Header(params.headers, TimestampHeader));
    var json := crypto.stringify(params.webhook);
    VerifyAcceptsExactlyTheSignature(zoomApiOpts, crypto, params);
    if Signature(crypto, secret, ts, json) == Signature(crypto, secret, timestamp, body) {
      SignaturePrefixCancels(
        crypto.hmacSha256Hex(secret, SignedMessage(ts, json)),
        crypto.hmacSha256Hex(secret, SignedMessage(timestamp, body)));
    }
  }

  /** Corollary for the timestamp and body themselves: when the rendered
      timestamp has the signed one's length (every one-character change) or
      neither contains a colon, the request is accepted exactly when it
      renders that timestamp and serializes to that body, so a changed
      timestamp or body is rejected. */
  lemma AcceptedSignatureAuthenticates(
    zoomApiOpts: ZoomOptions, crypto: Primitives, params: VerifyWebhookEventParams,
    timestamp: string, body: string)
    requires !Falsy(zoomApiOpts.webhookSecretToken)
    requires MessageInjective(crypto, zoomApiOpts.webhookSecretToken.value)
    requires Header(params.headers, SignatureHeader)
             == Some(Signature(crypto, zoomApiOpts.webhookSecretToken.value, timestamp, body))
    requires |Interpolate(Header(params.headers, TimestampHeader))| == |timestamp|
             || (':' !in timestamp && ':' !in Interpolate(Header(params.headers, TimestampHeader)))
    ensures VerifyWebhookEvent(zoomApiOpts, crypto, params) == Success(true)
            <==> Interpolate(Header(params.headers, TimestampHeader)) == timestamp
                 && crypto.stringify(params.webhook) == body
  {
    var ts := Interpolate(Header(params.headers, TimestampHeader));
    var json := crypto.stringify(params.webhook);
    AcceptedSignatureMatchesMessage(zoomApiOpts, crypto, params, timestamp, body);
    if SignedMessage(ts, json) == SignedMessage(timestamp, body) {
      SignedMessageInjective(ts, json, timestamp, body);
    }
  }

  /** The verdict reads only the secret, the two headers and the serialized
      event: the other options and headers do not matter, and equal inputs give
      equal verdicts. */
  lemma VerifyReadsOnlySecretHeadersAndBody(
    opts1: ZoomOptions, opts2: ZoomOptions, crypto: Primitives,
    params1: VerifyWebhookEventParams, params2: VerifyWebhookEventParams)
    requires opts1.webhookSecretToken == opts2.webhookSecretToken
    requires Header(params1.headers, TimestampHeader) == Header(params2.headers, TimestampHeader)
    requires Header(params1.headers, SignatureHeader) == Header(params2.headers, SignatureHeader)
    requires crypto.stringify(params1.webhook) == crypto.stringify(params2.webhook)
    ensures VerifyWebhookEvent(opts1, crypto, params1) == VerifyWebhookEvent(opts2, crypto, params2)
  {
  }

  // ---------------------------------------------------------------------------
  // GetEndpointValidationResponse.
  // ---------------------------------------------------------------------------

  /** With a secret, the challenge is answered with the token and its HMAC. */
  lemma ValidationResponseAnswersChallenge(
    zoomApiOpts: ZoomOptions, crypto: Primitives, plainToken: string)
    requires !Falsy(zoomApiOpts.webhookSecretToken)
    ensures GetEndpointValidationResponse(
              zoomApiOpts, crypto, EndpointUrlValidation(ValidationPayload(plainToken)))
            == Success(Some(EndpointValidationResponse(
                 plainToken, crypto.hmacSha256Hex(zoomApiOpts.webhookSecretToken.value, plainToken))))
  {
  }

  /** With an idealised HMAC, the platform accepts the answer to its challenge
      exactly when the configured secret is the platform's. */
  lemma ChallengeAnsweredIffSameSecret(
    zoomApiOpts: ZoomOptions, crypto: Primitives, platformSecret: string, plainToken: string)
    requires !Falsy(zoomApiOpts.webhookSecretToken)
    requires KeyInjective(crypto)
    ensures GetEndpointValidationResponse(
              zoomApiOpts, crypto, EndpointUrlValidation(ValidationPayload(plainToken))).Success?
    ensures var r := GetEndpointValidationResponse(
              zoomApiOpts, crypto, EndpointUrlValidation(ValidationPayload(plainToken)));
            r.value.Some?
            && (ChallengeAnswered(crypto, platformSecret, plainToken, r.value.value)
                <==> zoomApiOpts.webhookSecretToken.value == platformSecret)
  {
    ValidationResponseAnswersChallenge(zoomApiOpts, crypto, plainToken);
  }

  /** The validation response reads only the secret and the event. */
  lemma ValidationReadsOnlySecretAndEvent(
    opts1: ZoomOptions, opts2: ZoomOptions, crypto: Primitives, webhook: WebhookEvent)
    requires opts1.webhookSecretToken == opts2.webhookSecretToken
    ensures GetEndpointValidationResponse(opts1, crypto, webhook)
            == GetEndpointValidationResponse(opts2, crypto, webhook)
  {
  }

  // ---------------------------------------------------------------------------
  // Worked scenarios.
  // ---------------------------------------------------------------------------

  /** Secret "s3cr3t" and the challenge token "abc123". */
  lemma ValidationScenario(zoomApiOpts: ZoomOptions, crypto: Primitives)
    requires zoomApiOpts.webhookSecretToken == Some("s3cr3t")
    ensures GetEndpointValidationResponse(
              zoomApiOpts, crypto, EndpointUrlValidation(ValidationPayload("abc123")))
            == Success(Some(EndpointValidationResponse("abc123", crypto.hmacSha256Hex("s3cr3t", "abc123"))))
  {
  }

  /** A correctly signed `meeting.ended` request is accepted; the same headers
      with a body that serializes differently are rejected. */
  lemma MeetingEndedScenario(
    zoomApiOpts: ZoomOptions, crypto: Primitives,
    meeting: Payload<WebhookMeeting>, tampered: Payload<WebhookMeeting>)
    requires zoomApiOpts.webhookSecretToken == Some("s3cr3t")
    requires MessageInjective(crypto, "s3cr3t")
    requires crypto.stringify(MeetingEnded(tampered)) != crypto.stringify(MeetingEnded(meeting))
    ensures var headers := SignedHeaders(crypto, "s3cr3t", "1610000000", crypto.stringify(MeetingEnded(meeting)));
            VerifyWebhookEvent(zoomApiOpts, crypto, VerifyWebhookEventParams(headers, MeetingEnded(meeting)))
              == Success(true)
            && VerifyWebhookEvent(zoomApiOpts, crypto, VerifyWebhookEventParams(headers, MeetingEnded(tampered)))
              == Success(false)
  {
    var body := crypto.stringify(MeetingEnded(meeting));
    var headers := SignedHeaders(crypto, "s3cr3t", "1610000000", body);
    SignedRequestAccepted(zoomApiOpts, crypto, "1610000000", body, MeetingEnded(meeting));
    AcceptedSignatureAuthenticates(zoomApiOpts, crypto, VerifyWebhookEventParams(headers, MeetingEnded(tampered)),
      "1610000000", crypto.stringify(MeetingEnded(meeting)));
  }
}
