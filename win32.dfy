/**
 * The Windows scalar types and status conventions that the three readers
 * depend on.  Only their arithmetic meaning is modelled; the calls that
 * produce them are inputs of the model.
 */
module Win32 {

  /** A C `int` or `LONG`: a 32-bit two's-complement integer. */
  newtype int32 = x: int | -0x8000_0000 <= x < 0x8000_0000

  /** The number of non-negative `int32` values. */
  const INT32_LIMIT: nat := 0x8000_0000

  /** `HRESULT`, the status code returned by every COM call. */
  type HResult = int32

  /** The `FAILED` macro: the severity bit is set, i.e. the value is negative. */
  predicate Failed(hr: HResult) { hr < 0 }

  /** The `SUCCEEDED` macro. */
  predicate Succeeded(hr: HResult) { hr >= 0 }

  /** Number of distinct values of a 32-bit `DWORD`. */
  const DWORD_MODULUS: int := 0x1_0000_0000

  /** A `DWORD`: a 32-bit unsigned integer. */
  newtype uint32 = x: int | 0 <= x < 0x1_0000_0000

  /** Subtraction of two `DWORD`s: the result wraps modulo 2^32 and is never negative. */
  function DwordSub(a: uint32, b: uint32): (d: uint32)
    ensures a >= b ==> d as int == a as int - b as int
    ensures a < b ==> d as int == a as int - b as int + DWORD_MODULUS
  {
    ((a as int - b as int) % DWORD_MODULUS) as uint32
  }

  /** Addition of two `DWORD`s, wrapping modulo 2^32. */
  function DwordAdd(a: uint32, b: uint32): (s: uint32)
    ensures DwordSub(s, b) == a
  {
    ((a as int + b as int) % DWORD_MODULUS) as uint32
  }

  /** `VARTYPE` tag of a variant that holds a 32-bit signed integer. */
  const VT_I4: nat := 3
}
