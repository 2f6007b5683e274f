/** Values shared by every module: an optional value and the shape of an
    HTTP response as the client code sees it (a status code and a body that
    may be absent). */
module Wrappers {

  datatype Option<+T> = None | Some(value: T)

  /** An awaited response: `status` is the HTTP status code, `data` the
      parsed body, `None` when the body is null or undefined. */
  datatype Response<+T> = Response(status: int, data: Option<T>)

  const StatusOk: int := 200
  const StatusConflict: int := 409
}
