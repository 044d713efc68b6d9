/** What an endpoint hands back to the web layer.

    Every endpoint either produces its payload, returns a JSON object whose
    only field is `error` with a fixed message, or raises an exception that
    its catch-all handler turns into an error string built from the
    exception's text (`Raised`: that text is not modelled). */
module Responses {

  datatype Option<T> = None | Some(value: T)

  datatype Response<T> = Ok(payload: T) | Error(message: string) | Raised

  /** The guard shared by the endpoints that refuse an empty table. */
  const NoData := "No data available"
}
