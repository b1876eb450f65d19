/** Option and Result, and the exceptions the framework raises. */
module Wrappers {

  datatype Option<+T> = None | Some(value: T)

  /** The two Python exceptions the modelled code can raise. */
  datatype Error =
    | KeyError(key: string)        // a lookup of a step name the registry does not hold
    | RuntimeError(message: string) // `raise_()` and the descriptor's binding check

  /** What a Python call either returns or raises. */
  datatype Result<+T> = Ok(value: T) | Err(error: Error)
}
