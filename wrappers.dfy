/** Optional values, for JavaScript's `null`/`undefined` and for values a
    parse may fail to produce. */
module Wrappers {

  datatype Option<+T> = None | Some(value: T)

  /** JavaScript's `message || fallback` on a string that may be absent:
      a present, non-empty message is kept, anything else gives the
      fallback, so the result is never empty when the fallback is not. */
  function OrElse(message: Option<string>, fallback: string): (r: string)
    ensures message.Some? && message.value != "" ==> r == message.value
    ensures message.None? || message.value == "" ==> r == fallback
    ensures fallback != "" ==> r != ""
  {
    if message.Some? && message.value != "" then message.value else fallback
  }
}
