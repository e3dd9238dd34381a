/** Vocabulary shared by every module: machine-integer ranges, optional values and call results. */
module Prelude {

  const I64_MAX: int := 0x7FFF_FFFF_FFFF_FFFF
  const U32_MAX: int := 0xFFFF_FFFF
  const U64_MAX: int := 0xFFFF_FFFF_FFFF_FFFF
  const I128_MAX: int := 0x7FFF_FFFF_FFFF_FFFF_FFFF_FFFF_FFFF_FFFF
  const I128_MIN: int := -0x8000_0000_0000_0000_0000_0000_0000_0000

  /** The amounts a caller can pass: any signed 128-bit value, negative ones included. */
  type i128 = x: int | I128_MIN <= x <= I128_MAX

  predicate FitsI128(x: int) {
    I128_MIN <= x <= I128_MAX
  }

  datatype Option<+T> = None | Some(value: T)

  /** Why a contract call failed. `TtlRefused` is the host declining to extend an entry's lifetime. */
  datatype Error =
    | Unauthorized
    | NegativeAmount
    | NoAdministrator
    | AlreadyInitialized
    | DecimalTooLarge
    | InsufficientAllowance
    | InsufficientBalance
    | ExpirationInPast
    | Overflow
    | ContractMissing
    | TtlRefused

  datatype Result<+T> = Ok(value: T) | Err(error: Error) {
    predicate IsFailure() {
      Err?
    }

    function PropagateFailure<U>(): Result<U>
      requires Err?
    {
      Err(error)
    }

    function Extract(): T
      requires Ok?
    {
      value
    }
  }
}
