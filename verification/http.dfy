/**
 * What a call to the authentication service hands back to a screen, with the
 * HTTP client and the JSON reader abstracted away.
 */
module Http {
  import opened Wrappers

  /**
   * Either a response with its status code, its decoded success body (null
   * when absent) and the `message` field read from its error body (null
   * when the body is missing, does not parse or has no such field), or the
   * exception raised on the way, with its localized message.
   */
  datatype Reply<B> =
    | Response(code: int, body: Option<B>, errorMessage: Option<string>)
    | Failure(detail: Option<string>)

  /** Retrofit's `isSuccessful`: a status code in 200..299. */
  predicate IsSuccessful(code: int) {
    200 <= code <= 299
  }

  /** A nullable string inside a Kotlin string template: `null` prints as "null". */
  function Interpolate(x: Option<string>): string {
    x.GetOr("null")
  }

  /** The text both screens show when the call throws. */
  function ConnectionErrorText(detail: Option<string>): (t: string)
    ensures "Error de conexión: " <= t
    ensures detail.Some? ==> t == "Error de conexión: " + detail.value + ". Verifica tu internet."
    ensures detail.None? ==> t == "Error de conexión: null. Verifica tu internet."
  {
    assert "Error de conexión: " + "null" + ". Verifica tu internet." == "Error de conexión: null. Verifica tu internet.";
    "Error de conexión: " + Interpolate(detail) + ". Verifica tu internet."
  }
}
