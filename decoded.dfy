/**
 * Responses as the processing code sees them once the HTTP request has
 * been made and the body decoded.  The transport and the JSON and XML
 * decoders are not modelled: their outcome is an input.
 */
module Decoded {

  /**
   * One element of a decoded JSON list, told apart as `reflect` does: a
   * string, a list (of strings, here), or a value of any other kind.
   */
  datatype Line = Text(text: string) | Group(rows: seq<string>) | Other

  /** The outcome of fetching and decoding a response body. */
  datatype Fetch<T> = ConnectFailed | DecodeFailed | Fetched(body: T)
}
