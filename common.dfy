/** Small value types shared by the server and the browser client. */
module Common {

  /** A JavaScript value that may be absent: `None` stands for `undefined` or `null`
      wherever the code treats the two alike. */
  datatype Option<+T> = None | Some(value: T)

  /** The outcome of an awaited network call: the parsed JSON body, or the error
      whose message the client shows. */
  datatype ApiResult<+T> = Ok(value: T) | Fail(message: string)

  /** JavaScript truthiness of an optional string: absent and "" are falsy. */
  predicate Truthy(s: Option<string>)
  {
    s.Some? && s.value != ""
  }

  datatype NoticeKind = Success | Failure | Info

  /** A toast shown by the client's notification system. */
  datatype Notice = Notice(kind: NoticeKind, text: string)
}
