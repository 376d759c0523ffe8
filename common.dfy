/** The configuration record the webhook factory captures (`ZoomOptions`). */
module Common {
  import opened Wrappers

  /** `tokenExpiresIn?: string | number`. A JavaScript number is modelled as an
      integer: the webhook verifier never reads this field. */
  datatype TokenLifetime = Text(text: string) | Number(amount: int)

  /** The client configuration. The declared type has only the first three
      fields; the verifier also reads `webhookSecretToken`, so the model adds it
      as an optional string. Values of this type are immutable, as the captured
      options are in the source: they are only ever read. */
  datatype ZoomOptions = ZoomOptions(
    apiKey: string,
    apiSecret: string,
    tokenExpiresIn: Option<TokenLifetime>,
    webhookSecretToken: Option<string>)

  /** JavaScript falsiness of `string | undefined`: absent or the empty
      string. A truthy token is a present, non-empty string. */
  predicate Falsy(token: Option<string>): (falsy: bool)
    ensures !falsy <==> token.Some? && |token.value| > 0
  {
    token.None? || token.value == ""
  }
}
