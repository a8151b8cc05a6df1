/** Shared vocabulary of the client: optional values, server replies, the
    browser's key/value storage and JavaScript's `message || fallback`. */
module Common {

  datatype Option<+T> = None | Some(value: T)

  /** One round trip to the REST API as the client sees it: the response
      body, or a failure carrying the HTTP status (None when no response
      arrived at all) and the `error` field of the response body, if any. */
  datatype Reply<+T> = Ok(value: T) | Failed(status: Option<int>, serverError: Option<string>)

  /** localStorage: string keys to string values. */
  type Storage = map<string, string>

  const AuthTokenKey: string := "authToken"
  const UserKey: string := "user"

  /** `localStorage.getItem(key)`: null when the key is absent. */
  function GetItem(stored: Storage, key: string): (r: Option<string>)
    ensures r.Some? <==> key in stored
    ensures r.Some? ==> r.value == stored[key]
  {
    if key in stored then Some(stored[key]) else None
  }

  /** JavaScript truthiness of a `string | null`: present and non-empty. */
  predicate Truthy(s: Option<string>) {
    s.Some? && s.value != ""
  }

  /** `message || fallback` on an optional string. */
  function OrElse(message: Option<string>, fallback: string): string {
    if Truthy(message) then message.value else fallback
  }

  /** The fallback is taken exactly when the message is missing or empty,
      so a non-empty fallback always yields a non-empty text. */
  lemma OrElseNonEmpty(message: Option<string>, fallback: string)
    requires fallback != ""
    ensures OrElse(message, fallback) != ""
    ensures OrElse(message, fallback) == fallback <==> !Truthy(message) || message.value == fallback
  {
  }
}
