/** Shared vocabulary: optional values, the exceptions the bot can meet, and the
    reply of one call into the exchange client (a value or a raised exception). */
module Wrappers {

  /** Python's `None` versus a present value. */
  datatype Option<+T> = None | Some(value: T)

  /** The exceptions that matter to the bot. `ApiException` is the client's
      `BinanceAPIException`; `UnexpectedError` is any other exception a client
      call raises (network failures, decoding errors); `KeyError` and
      `TypeError` are raised by the bot's own code (a missing dictionary key,
      arithmetic or comparison on `None`). */
  datatype Fault = ApiException | UnexpectedError | KeyError | TypeError

  /** What one call into the exchange client produced. */
  datatype Reply<+T> = Ok(value: T) | Raised(fault: Fault)
}
