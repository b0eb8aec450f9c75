/** The one thing the pages need to know about the HTTP client: a request
    either yields its parsed response or throws. */
module Remote {

  /** Outcome of a fetch: the parsed response, or the message the page stores
      as its error (the thrown `Error`'s message, or `DefaultErrorMessage`
      when something else was thrown). */
  datatype Fetch<T> = Loaded(value: T) | Failed(message: string)

  /** Message stored when a fetch throws something that is not an `Error`. */
  const DefaultErrorMessage: string := "เกิดข้อผิดพลาดในการโหลดข้อมูล"
}
