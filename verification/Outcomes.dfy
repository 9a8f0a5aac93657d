/** Optional values, and results that carry the exception the source would throw. */
module Outcomes {
  datatype Option<+T> = None | Some(value: T)

  datatype Result<+T, +E> = Success(value: T) | Failure(error: E)

  /** The exceptions the event-store layers can raise. */
  datatype StoreError =
    | MissingId       // AggregateOrEventMissingIdException
    | OutOfOrder      // EventsOutOfOrderException
    | Concurrency     // ConcurrencyException
    | DuplicateKey    // unique (aggregate, version) violated
    | PublishFailed   // MessagePublishFailedException
    | StoreDown       // a store call that threw without taking effect
    | NullReference   // NullReferenceException: a cached null, or a commit id without its event
    | DivideByZero    // a snapshot interval of zero
}
