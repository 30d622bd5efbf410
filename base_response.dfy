/** `BaseResponse`: the success envelope, an immutable record of the success
    flag, a code, a message and the creation timestamp, with three static
    factories. The timestamp is the formatted clock reading at construction,
    passed in. */
module BaseResponses {

  /** The response-code object the factories read: its code, message and HTTP status. */
  datatype BaseResponseCode = BaseResponseCode(code: string, message: string, httpStatus: int)

  datatype BaseResponse = BaseResponse(isSuccess: bool, code: string, message: string, timestamp: string)

  /** `of(isSuccess, baseResponseCode)`: code and message both from the code object. */
  function OfCode(isSuccess: bool, responseCode: BaseResponseCode, timestamp: string): (r: BaseResponse)
    ensures r.isSuccess == isSuccess && r.timestamp == timestamp
    ensures r.code == responseCode.code && r.message == responseCode.message
  {
    BaseResponse(isSuccess, responseCode.code, responseCode.message, timestamp)
  }

  /** `of(isSuccess, baseResponseCode, message)`: the code from the object,
      the message from the argument. */
  function OfCodeWithMessage(isSuccess: bool, responseCode: BaseResponseCode, message: string, timestamp: string): (r: BaseResponse)
    ensures r.isSuccess == isSuccess && r.timestamp == timestamp
    ensures r.code == responseCode.code && r.message == message
  {
    BaseResponse(isSuccess, responseCode.code, message, timestamp)
  }

  /** `of(isSuccess, code, message)`: all three copied verbatim. */
  function Of(isSuccess: bool, code: string, message: string, timestamp: string): (r: BaseResponse)
    ensures r.isSuccess == isSuccess && r.timestamp == timestamp
    ensures r.code == code && r.message == message
  {
    BaseResponse(isSuccess, code, message, timestamp)
  }

  /** The three factories agree: overriding the message with the code's own
      message, or passing the code's fields as strings, changes nothing. */
  lemma FactoriesAgree(isSuccess: bool, responseCode: BaseResponseCode, timestamp: string)
    ensures OfCodeWithMessage(isSuccess, responseCode, responseCode.message, timestamp) == OfCode(isSuccess, responseCode, timestamp)
    ensures Of(isSuccess, responseCode.code, responseCode.message, timestamp) == OfCode(isSuccess, responseCode, timestamp)
  {
  }
}
