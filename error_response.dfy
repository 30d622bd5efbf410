/** `ErrorResponse<T>`: the failure envelope. It extends `BaseResponse` with
    the HTTP status and an optional payload; both constructors fix the
    success flag to `false` and take the code and status from the
    response-code object. */
module ErrorResponses {
  import opened Results
  import opened BaseResponses

  /** The inherited fields, the HTTP status and the payload (`None` for `null`). */
  datatype ErrorResponse<T> = ErrorResponse(base: BaseResponse, httpStatus: int, data: Option<T>)

  /** The fields every error envelope built from `responseCode` has. */
  predicate FromCode<T>(r: ErrorResponse<T>, responseCode: BaseResponseCode, timestamp: string) {
    && !r.base.isSuccess
    && r.base.code == responseCode.code
    && r.httpStatus == responseCode.httpStatus
    && r.base.timestamp == timestamp
  }

  /** `new ErrorResponse(data, baseResponseCode)`: the message is the code's. */
  function New<T>(data: Option<T>, responseCode: BaseResponseCode, timestamp: string): (r: ErrorResponse<T>)
    ensures FromCode(r, responseCode, timestamp)
    ensures r.base.message == responseCode.message && r.data == data
  {
    ErrorResponse(BaseResponse(false, responseCode.code, responseCode.message, timestamp), responseCode.httpStatus, data)
  }

  /** `new ErrorResponse(data, baseResponseCode, message)`: the message is the argument. */
  function NewWithMessage<T>(data: Option<T>, responseCode: BaseResponseCode, message: string, timestamp: string): (r: ErrorResponse<T>)
    ensures FromCode(r, responseCode, timestamp)
    ensures r.base.message == message && r.data == data
  {
    ErrorResponse(BaseResponse(false, responseCode.code, message, timestamp), responseCode.httpStatus, data)
  }

  /** `from(baseResponseCode)`: no payload, the code's message. */
  function From<T>(responseCode: BaseResponseCode, timestamp: string): (r: ErrorResponse<T>)
    ensures FromCode(r, responseCode, timestamp)
    ensures r.base.message == responseCode.message && r.data == None
  {
    New(None, responseCode, timestamp)
  }

  /** `of(baseResponseCode, message)`: no payload, the given message. */
  function OfMessage<T>(responseCode: BaseResponseCode, message: string, timestamp: string): (r: ErrorResponse<T>)
    ensures FromCode(r, responseCode, timestamp)
    ensures r.base.message == message && r.data == None
  {
    NewWithMessage(None, responseCode, message, timestamp)
  }

  /** `of(baseResponseCode, data)`: the payload carried unchanged, the code's message. */
  function OfData<T>(responseCode: BaseResponseCode, data: Option<T>, timestamp: string): (r: ErrorResponse<T>)
    ensures FromCode(r, responseCode, timestamp)
    ensures r.base.message == responseCode.message && r.data == data
  {
    New(data, responseCode, timestamp)
  }

  /** `of(baseResponseCode, data, message)`: the payload carried unchanged, the given message. */
  function OfDataWithMessage<T>(responseCode: BaseResponseCode, data: Option<T>, message: string, timestamp: string): (r: ErrorResponse<T>)
    ensures FromCode(r, responseCode, timestamp)
    ensures r.base.message == message && r.data == data
  {
    NewWithMessage(data, responseCode, message, timestamp)
  }

  /** Passing the code's own message to the message-taking factory builds the
      same envelope as the one without it, except for the clock-derived
      timestamp. */
  lemma CodeMessageOverrideIsNeutral<T>(responseCode: BaseResponseCode, data: Option<T>, t1: string, t2: string)
    ensures var a, b := OfDataWithMessage(responseCode, data, responseCode.message, t1), OfData(responseCode, data, t2);
      a.base.isSuccess == b.base.isSuccess && a.base.code == b.base.code && a.base.message == b.base.message
      && a.httpStatus == b.httpStatus && a.data == b.data
    ensures OfMessage<T>(responseCode, responseCode.message, t1) == From(responseCode, t1)
  {
  }

  /** Every error envelope is the base envelope that `BaseResponse.of` would
      build for a failure, with the same code and message. */
  lemma ErrorEnvelopeIsFailedBase<T>(responseCode: BaseResponseCode, data: Option<T>, message: string, timestamp: string)
    ensures OfDataWithMessage(responseCode, data, message, timestamp).base == OfCodeWithMessage(false, responseCode, message, timestamp)
    ensures OfData(responseCode, data, timestamp).base == OfCode(false, responseCode, timestamp)
  {
  }
}
