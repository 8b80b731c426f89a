/** The error envelope thrown by handlers and middleware: every failure a
    caller ever sees carries this shape. */
module ApiErrors {
  import opened Wrappers

  const DefaultErrorMessage := "Something went wrong"

  /** `data` is the JSON payload slot (`None` is `null`); `errors` are the
      detail entries, here kept as strings. */
  datatype ApiError = ApiError(
    statusCode: int,
    data: Option<string>,
    message: string,
    success: bool,
    errors: seq<string>)

  /** `new ApiError(statusCode, message, errors)`; an omitted (undefined)
      argument is `None` and takes its default. */
  function NewApiError(statusCode: int, message: Option<string>, errors: Option<seq<string>>): ApiError {
    ApiError(
      statusCode,
      None,
      match message { case None => DefaultErrorMessage case Some(m) => m },
      false,
      match errors { case None => [] case Some(e) => e })
  }

  /** The status code is kept, the payload is null and the envelope never
      reports success, whatever the status code. */
  lemma ErrorEnvelopeShape(statusCode: int, message: Option<string>, errors: Option<seq<string>>)
    ensures NewApiError(statusCode, message, errors).statusCode == statusCode
    ensures NewApiError(statusCode, message, errors).data == None
    ensures !NewApiError(statusCode, message, errors).success
  {
  }

  /** The message is the argument when one is given and
      "Something went wrong" otherwise; the error list defaults to empty. */
  lemma ErrorDefaults(statusCode: int, message: Option<string>, errors: Option<seq<string>>)
    ensures message.Some? ==> NewApiError(statusCode, message, errors).message == message.value
    ensures message.None? ==> NewApiError(statusCode, message, errors).message == "Something went wrong"
    ensures errors.Some? ==> NewApiError(statusCode, message, errors).errors == errors.value
    ensures errors.None? ==> NewApiError(statusCode, message, errors).errors == []
  {
  }
}
