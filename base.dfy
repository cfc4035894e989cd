/** Shared vocabulary of the API: optional values, handler replies and identifiers. */
module Base {

  datatype Option<T> = None | Some(value: T)

  /** What a handler writes back: an HTTP status with a payload, or an HTTP status with an error code. */
  datatype Reply<T> = Ok(status: int, data: T) | Fail(status: int, code: string)

  /** Users, wallets and table rows are identified by UUID text. */
  type UserId = string
  type WalletId = string
}
