/** Outcomes of the remote user service, which this model treats as
    opaque: each call either resolves or rejects. */
module Replies {

  /** A call whose resolved value is used: resolved with `value`, or
      rejected (the source's `catch` ignores the reason). */
  datatype Reply<+T> = Ok(value: T) | Err

  /** A call whose resolved value is ignored. */
  datatype Ack = Acked | Rejected
}
