/** Option and Result, used for `diarize_audio`'s optional form fields and for
    the exceptions that end a request. */
module Wrappers {

  datatype Option<+T> = None | Some(value: T)

  datatype Result<+R, +E> = Success(value: R) | Failure(error: E)
}
