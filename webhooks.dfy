/** The webhook event union and the verifier factory of `src/webhooks.ts`. */
module Webhooks {
  import opened Wrappers
  import opened Common

  // ---------------------------------------------------------------------------
  // Event payloads. The picked meeting and webinar fields come from modules
  // outside this model; the registrant record is declared in src/common.ts.
  // All three are left abstract: no field of them is read.
  // ---------------------------------------------------------------------------

  /** `Pick<Meeting, 'duration' | 'start_time' | ...>`. */
  type WebhookMeeting(!new)
  /** `Pick<WebinarDetails, 'id' | 'uuid' | ...>`. */
  type WebhookWebinar(!new)
  /** The `Registrant` record. */
  type Registrant(!new)

  /** `Payload<T>`: `{account_id, object}`. */
  datatype Payload<T> = Payload(accountId: string, obj: T)

  /** `ChangePayload<T>`: `{account_id, object, old_object}`. */
  datatype ChangePayload<T> = ChangePayload(accountId: string, obj: T, oldObj: T)

  datatype WebhookParticipant = WebhookParticipant(
    userName: string,
    userId: Option<string>,
    id: Option<string>,
    joinTime: Option<string>)

  /** `WebhookMeeting & {participant}`. */
  datatype WebhookMeetingWithParticipant =
    WebhookMeetingWithParticipant(meeting: WebhookMeeting, participant: WebhookParticipant)

  /** `WebhookWebinar & {registrant}`. */
  datatype WebhookWebinarRegistrant =
    WebhookWebinarRegistrant(webinar: WebhookWebinar, registrant: Registrant)

  /** The payload of the endpoint-ownership challenge. */
  datatype ValidationPayload = ValidationPayload(plainToken: string)

  /** The closed union `WebhookEvent`, one constructor per member type. */
  datatype WebhookEvent =
    | MeetingStarted(meeting: Payload<WebhookMeeting>)
    | ParticipantJbhJoined(attendance: Payload<WebhookMeetingWithParticipant>)
    | ParticipantJoined(attendance: Payload<WebhookMeetingWithParticipant>)
    | ParticipantLeft(attendance: Payload<WebhookMeetingWithParticipant>)
    | MeetingEnded(meeting: Payload<WebhookMeeting>)
    | WebinarCreated(webinar: Payload<WebhookWebinar>)
    | WebinarUpdated(change: ChangePayload<WebhookWebinar>)
    | WebinarDeleted(webinar: Payload<WebhookWebinar>)
    | WebinarRegistrationCreated(registration: Payload<WebhookWebinarRegistrant>)
    | WebinarRegistrationApproved(registration: Payload<WebhookWebinarRegistrant>)
    | WebinarRegistrationDenied(registration: Payload<WebhookWebinarRegistrant>)
    | WebinarRegistrationCancelled(registration: Payload<WebhookWebinarRegistrant>)
    | EndpointUrlValidation(challenge: ValidationPayload)

  const EndpointUrlValidationEvent := "endpoint.url_validation"

  /** The `event` discriminator string each member of the union carries. Only
      the challenge variant carries `endpoint.url_validation`, so testing the
      string narrows the union to that variant. */
  function Event(webhook: WebhookEvent): (r: string)
    ensures r == EndpointUrlValidationEvent <==> webhook.EndpointUrlValidation?
  {
    match webhook
    case MeetingStarted(_) => "meeting.started"
    case ParticipantJbhJoined(_) => "meeting.participant_jbh_joined"
    case ParticipantJoined(_) => "meeting.participant_joined"
    case ParticipantLeft(_) => "meeting.participant_left"
    case MeetingEnded(_) => "meeting.ended"
    case WebinarCreated(_) => "webinar.created"
    case WebinarUpdated(_) => "webinar.updated"
    case WebinarDeleted(_) => "webinar.deleted"
    case WebinarRegistrationCreated(_) => "webinar.registration_created"
    case WebinarRegistrationApproved(_) => "webinar.registration_approved"
    case WebinarRegistrationDenied(_) => "webinar.registration_denied"
    case WebinarRegistrationCancelled(_) => "webinar.registration_cancelled"
    case EndpointUrlValidation(_) => EndpointUrlValidationEvent
  }

  /** The discriminator identifies the variant: distinct members of the union
      carry distinct `event` strings. */
  lemma EventDiscriminatorsDistinct(w1: WebhookEvent, w2: WebhookEvent)
    requires Event(w1) == Event(w2)
    ensures w1.MeetingStarted? == w2.MeetingStarted?
    ensures w1.ParticipantJbhJoined? == w2.ParticipantJbhJoined?
    ensures w1.ParticipantJoined? == w2.ParticipantJoined?
    ensures w1.ParticipantLeft? == w2.ParticipantLeft?
    ensures w1.MeetingEnded? == w2.MeetingEnded?
    ensures w1.WebinarCreated? == w2.WebinarCreated?
    ensures w1.WebinarUpdated? == w2.WebinarUpdated?
    ensures w1.WebinarDeleted? == w2.WebinarDeleted?
    ensures w1.WebinarRegistrationCreated? == w2.WebinarRegistrationCreated?
    ensures w1.WebinarRegistrationApproved? == w2.WebinarRegistrationApproved?
    ensures w1.WebinarRegistrationDenied? == w2.WebinarRegistrationDenied?
    ensures w1.WebinarRegistrationCancelled? == w2.WebinarRegistrationCancelled?
    ensures w1.EndpointUrlValidation? == w2.EndpointUrlValidation?
  {
  }

  // ---------------------------------------------------------------------------
  // Foreign primitives, headers and the call's inputs and outputs.
  // ---------------------------------------------------------------------------

  /** The two foreign computations, left uninterpreted: Node's
      `createHmac('sha256', key).update(message).digest('hex')` and
      `JSON.stringify` of an event. */
  datatype Primitives = Primitives(
    hmacSha256Hex: (string, string) -> string,
    stringify: WebhookEvent -> string)

  /** Incoming HTTP headers: a key may be missing or map to `undefined`. */
  type Headers = map<string, Option<string>>

  const TimestampHeader := "x-zm-request-timestamp"
  const SignatureHeader := "x-zm-signature"

  /** `headers[name]`: a missing key reads as `undefined`. */
  function Header(headers: Headers, name: string): (v: Option<string>)
    ensures name in headers ==> v == headers[name]
    ensures name !in headers ==> v.None?
  {
    if name in headers then headers[name] else None
  }

  /** How a header value renders inside a template literal: a string as
      itself, `undefined` as the text "undefined". */
  function Interpolate(value: Option<string>): (r: string)
    ensures value.Some? ==> r == value.value
    ensures value.None? ==> r == "undefined"
  {
    match value
    case Some(s) => s
    case None => "undefined"
  }

  /** `VerifyWebhookEventParams`: the incoming headers and one event. */
  datatype VerifyWebhookEventParams =
    VerifyWebhookEventParams(headers: Headers, webhook: WebhookEvent)

  /** The object literal returned to the platform's challenge. */
  datatype EndpointValidationResponse =
    EndpointValidationResponse(plainToken: string, encryptedToken: string)

  /** The one error either operation throws. */
  datatype WebhookError = MissingWebhookSecretToken
  {
    function Message(): string { "Missing webhookSecretToken" }
  }

  // ---------------------------------------------------------------------------
  // The two operations and the factory that captures the options.
  // ---------------------------------------------------------------------------

  /** Checks an inbound request's `x-zm-signature` against the HMAC of the
      message built from its timestamp and the serialized event. */
  function VerifyWebhookEvent(
    zoomApiOpts: ZoomOptions, crypto: Primitives, params: VerifyWebhookEventParams)
    : (r: Result<bool, WebhookError>)
    ensures r.Failure? <==> Falsy(zoomApiOpts.webhookSecretToken)
    ensures r.Failure? ==> r.error == MissingWebhookSecretToken
    // strict equality with a string fails on `undefined`
    ensures Header(params.headers, SignatureHeader).None? ==> r != Success(true)
  {
    if Falsy(zoomApiOpts.webhookSecretToken) then
      Failure(MissingWebhookSecretToken)
    else
      var message := "v0:" + Interpolate(Header(params.headers, TimestampHeader))
                     + ":" + crypto.stringify(params.webhook);
      var hashForVerify := crypto.hmacSha256Hex(zoomApiOpts.webhookSecretToken.value, message);
      var signature := "v0=" + hashForVerify;
      if Header(params.headers, SignatureHeader) == Some(signature) then
        Success(true)
      else
        Success(false)
  }

  /** Answers the endpoint-ownership challenge; `None` stands for `null`. */
  function GetEndpointValidationResponse(
    zoomApiOpts: ZoomOptions, crypto: Primitives, webhook: WebhookEvent)
    : (r: Result<Option<EndpointValidationResponse>, WebhookError>)
    // the secret is checked first, whatever the event
    ensures r.Failure? <==> Falsy(zoomApiOpts.webhookSecretToken)
    ensures r.Failure? ==> r.error == MissingWebhookSecretToken
    // `null` exactly for the twelve other variants
    ensures r.Success? ==> (r.value.Some? <==> webhook.EndpointUrlValidation?)
    // the challenge token passes through unchanged
    ensures r.Success? && r.value.Some? ==>
      r.value.value.plainToken == webhook.challenge.plainToken
  {
    if Falsy(zoomApiOpts.webhookSecretToken) then
      Failure(MissingWebhookSecretToken)
    else if Event(webhook) != EndpointUrlValidationEvent then
      Success(None)
    else
      var hashForValidate := crypto.hmacSha256Hex(
        zoomApiOpts.webhookSecretToken.value, webhook.challenge.plainToken);
      Success(Some(EndpointValidationResponse(webhook.challenge.plainToken, hashForValidate)))
  }

  /** What the default-export factory returns: the two closures. */
  datatype WebhookHandlers = WebhookHandlers(
    verifyWebhookEvent: VerifyWebhookEventParams -> Result<bool, WebhookError>,
    getEndpointValidationResponse:
      WebhookEvent -> Result<Option<EndpointValidationResponse>, WebhookError>)

  /** The default-export factory: both closures read the captured options. */
  function CreateWebhooks(zoomApiOpts: ZoomOptions, crypto: Primitives): (h: WebhookHandlers)
    ensures forall params :: h.verifyWebhookEvent(params)
                             == VerifyWebhookEvent(zoomApiOpts, crypto, params)
    ensures forall webhook :: h.getEndpointValidationResponse(webhook)
                              == GetEndpointValidationResponse(zoomApiOpts, crypto, webhook)
  {
    WebhookHandlers(
      params => VerifyWebhookEvent(zoomApiOpts, crypto, params),
      webhook => GetEndpointValidationResponse(zoomApiOpts, crypto, webhook))
  }
}
