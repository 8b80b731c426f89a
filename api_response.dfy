/** The success envelope returned by handlers. */
module ApiResponses {
  import opened Wrappers

  const DefaultResponseMessage := "Success"

  datatype ApiResponse<T> = ApiResponse(statusCode: int, data: T, message: string, success: bool)

  /** `new ApiResponse(statusCode, data, message)`; an omitted message is
      `None` and becomes "Success". */
  function NewApiResponse<T>(statusCode: int, data: T, message: Option<string>): ApiResponse<T> {
    ApiResponse(
      statusCode,
      data,
      match message { case None => DefaultResponseMessage case Some(m) => m },
      statusCode < 400)
  }

  /** Status code and payload are stored as given; the message defaults to
      "Success". */
  lemma ResponseFields<T>(statusCode: int, data: T, message: Option<string>)
    ensures NewApiResponse(statusCode, data, message).statusCode == statusCode
    ensures NewApiResponse(statusCode, data, message).data == data
    ensures message.Some? ==> NewApiResponse(statusCode, data, message).message == message.value
    ensures message.None? ==> NewApiResponse(statusCode, data, message).message == "Success"
  {
  }

  /** `success` holds exactly for the status codes below 400. */
  lemma SuccessIffBelow400<T>(statusCode: int, data: T, message: Option<string>)
    ensures NewApiResponse(statusCode, data, message).success <==> statusCode < 400
  {
  }

  /** The boundary: 399 is a success, 400 is not. */
  lemma SuccessBoundary<T>(data: T, message: Option<string>)
    ensures NewApiResponse(399, data, message).success
    ensures !NewApiResponse(400, data, message).success
  {
  }

  /** `success` depends on the status code alone, never on the payload or
      the message. */
  lemma SuccessIgnoresPayload<T>(statusCode: int, d1: T, m1: Option<string>, d2: T, m2: Option<string>)
    ensures NewApiResponse(statusCode, d1, m1).success == NewApiResponse(statusCode, d2, m2).success
  {
  }
}
