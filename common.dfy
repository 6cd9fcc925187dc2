/** Small value wrappers shared by the whole model. */
module Common {

  /** Python's `Optional[...]`: a value or `None`. */
  datatype Option<+T> = None | Some(value: T)

  /**
   * What an HTTP handler answers: a body, a 404 with its `detail` message,
   * or an exception the handler does not catch (a 500) with its message.
   */
  datatype Response<+T> = Ok(value: T) | NotFound(detail: string) | Failed(error: string)
}
