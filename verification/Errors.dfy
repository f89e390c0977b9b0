/** The ways a service call ends without success. The source answers a duplicate business
    number, a repeated event key and a violated CHECK or balance trigger all with its
    conflict error (src/error.rs:45-59), and a BIGINT overflow with its internal error;
    they are kept apart here so that theorems can say which of them can happen. */
module Errors {
  import opened Wrappers

  datatype Error =
    | Invalid
    | Forbidden
    | NotFound
    | Conflict
    | Internal
    | Duplicate        // a unique business number or provider reference is taken
    | EventKeyTaken    // UNIQUE(event_key) of journals
    | CheckViolation   // frozen_minor >= 0 or reserved_minor >= 0 of wallets
    | OutOfRange       // BIGINT overflow of a wallet column

  type Outcome<+T> = Result<T, Error>
}
