/** Optional values and the exceptions the queue constructors can raise. */
module Outcomes {

  datatype Option<T> = None | Some(value: T)

  /** The .NET exceptions a constructor in the core can throw. */
  datatype Error =
    | ArgumentException       // capacity rejected by RingBuffer.Queue
    | OverflowException       // `new T[n]` with a negative n
    | NullReferenceException  // ConcurrentQueue built from a null queue

  datatype Result<T> = Success(value: T) | Failure(error: Error)
}
