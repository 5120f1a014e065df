/** The uniform response envelope, without its timestamp. */
module ApiResponses {
  import opened Wrappers

  /** `data` None is a null payload. */
  datatype ApiResponse<+T> = ApiResponse(status: int, message: string, data: Option<T>)

  /** A 200 envelope. */
  function Success<T>(message: string, data: Option<T>): (r: ApiResponse<T>)
    ensures r.status == 200 && r.message == message && r.data == data
  {
    ApiResponse(200, message, data)
  }

  /** A 201 envelope. */
  function Created<T>(message: string, data: Option<T>): (r: ApiResponse<T>)
    ensures r.status == 201 && r.message == message && r.data == data
  {
    ApiResponse(201, message, data)
  }

  /** An envelope with the caller's status. */
  function Error<T>(status: int, message: string, data: Option<T>): (r: ApiResponse<T>)
    ensures r.status == status && r.message == message && r.data == data
  {
    ApiResponse(status, message, data)
  }
}
