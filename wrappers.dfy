/** Option and Result values, and the error kinds the store reports. */
module Wrappers {

  datatype Option<+T> = None | Some(value: T)

  datatype Result<+T, +E> = Ok(value: T) | Err(error: E)

  /** Why a call into the store failed. */
  datatype Error =
    | QueryFailed(detail: string)   // the engine round trip failed
    | DecodeFailed(detail: string)  // a row did not unmarshal or convert
    | TraceNotFound                 // no span is stored for the requested trace
}
