/** Error kinds raised by the modelled Python code, and the Result/Option
    wrappers that carry them instead of exceptions. */
module Errors {

  /** The Python exception classes the modelled operations can raise. */
  datatype Error =
    | ValueError
    | NotImplementedError
    | ZeroDivisionError
    | IndexError
    | KeyError
    | AssertionError
    | TypeError
      /** Not a Python exception class of its own: TensorFlow's
          `tf.errors.InvalidArgumentError`, raised when a graph op runs on
          bad values (an integer `tf.mod` by zero, a `tf.gather` index
          outside the tensor). */
    | InvalidArgumentError
      /** Not a Python exception: a single tensor (or a single shape) where
          a tuple of them is expected. Python then indexes or zips along the
          tensor's first axis, which the nested-tuple model does not represent. */
    | OutsideModel

  datatype Result<+T> = Ok(value: T) | Err(error: Error) {
    predicate IsFailure() { Err? }

    function PropagateFailure<U>(): Result<U>
      requires Err?
    {
      Err(error)
    }

    function Extract(): T
      requires Ok?
    {
      value
    }
  }

  datatype Option<+T> = None | Some(value: T)
}
