/** Option and Result, and the exceptions the image service can raise. */
module Wrappers {

  datatype Option<+T> = None | Some(value: T) {
    /** The value, or `default` for None: C#'s `??` operator on a nullable. */
    function GetOr(default: T): T {
      if Some? then value else default
    }
  }

  /** One constructor per kind of exception the request handler can run into.
      Every one of them aborts the whole request with a Failed response. */
  datatype Fault =
    | WrongService              // the service name is not this service's
    | KeyNotFound(key: string)  // a row dictionary indexed by a key it does not hold
    | DivideByZero              // a tile count of 0 divides the bitmap height
    | InvalidBitmapSize         // new Bitmap(w, h) with w <= 0 or h <= 0
    | PixelOutOfRange           // GetPixel(x, y) outside the bitmap
    | CodecFault(call: string)  // a library call (base64, image, OCR, barcode, enum parse) threw

  /** The outcome of code that may throw: a value, or the fault it threw. */
  datatype Result<+T> = Success(value: T) | Failure(error: Fault) {
    predicate IsFailure() {
      Failure?
    }

    function PropagateFailure<U>(): Result<U>
      requires Failure?
    {
      Failure(error)
    }

    function Extract(): T
      requires Success?
    {
      value
    }
  }

  /** A library call that returns `None` when it throws, as a Result naming the call. */
  function Call<T>(outcome: Option<T>, call: string): (r: Result<T>)
    ensures r.Success? <==> outcome.Some?
    ensures r.Success? ==> r.value == outcome.value
    ensures r.Failure? ==> r.error == CodecFault(call)
  {
    if outcome.Some? then Success(outcome.value) else Failure(CodecFault(call))
  }
}
