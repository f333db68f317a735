/** Machine integers, results and the wire order of integers shared by every other module. */
module Core {

  type byte = x: int | 0 <= x < 256
  type u16 = x: int | 0 <= x < 0x1_0000
  type u32 = x: int | 0 <= x < 0x1_0000_0000
  type u64 = x: int | 0 <= x < 0x1_0000_0000_0000_0000
  type i64 = x: int | -0x8000_0000_0000_0000 <= x < 0x8000_0000_0000_0000

  datatype Option<+T> = None | Some(value: T)

  /** The exceptions the program throws: `std::invalid_argument`, `std::out_of_range`
      and `helpers::SystemError`. Messages are not kept. */
  datatype Error = InvalidArgument | OutOfRange | SystemError(code: int)

  datatype Result<+T> = Ok(value: T) | Err(error: Error) {
    predicate IsFailure() {
      Err?
    }

    function PropagateFailure<U>(): Result<U>
      requires Err?
    {
      Err(error)
    }

    function Extract(): T
      requires Ok?
    {
      value
    }
  }

  /** Host order (little-endian) 16-bit integer. */
  function U16(n: u16): (b: seq<byte>)
    ensures |b| == 2
  {
    [n % 256, n / 256]
  }

  function GetU16(b: seq<byte>): u16
    requires |b| >= 2
  {
    b[0] + 256 * (b[1] as int)
  }

  /** Host order (little-endian) 32-bit integer. */
  function U32(n: u32): (b: seq<byte>)
    ensures |b| == 4
  {
    [n % 256, n / 256 % 256, n / 65536 % 256, n / 16777216]
  }

  function GetU32(b: seq<byte>): u32
    requires |b| >= 4
  {
    b[0] + 256 * (b[1] as int) + 65536 * (b[2] as int) + 16777216 * (b[3] as int)
  }

  function GetU64(b: seq<byte>): u64
    requires |b| >= 8
  {
    GetU32(b[..4]) + 0x1_0000_0000 * GetU32(b[4..8])
  }

  /** Two's complement reading of 64 bits. */
  function GetI64(b: seq<byte>): i64
    requires |b| >= 8
  {
    var n := GetU64(b);
    if n < 0x8000_0000_0000_0000 then n else n - 0x1_0000_0000_0000_0000
  }

  /** Host order 64-bit integer. */
  function U64(n: u64): (b: seq<byte>)
    ensures |b| == 8
  {
    U32(n % 0x1_0000_0000) + U32(n / 0x1_0000_0000)
  }

  /** Two's complement of 64 bits. */
  function I64(n: i64): (b: seq<byte>)
    ensures |b| == 8
  {
    U64(if n >= 0 then n else n + 0x1_0000_0000_0000_0000)
  }

  /** Network order (big-endian) 16-bit integer, as `htons` stores it. */
  function BE16(n: u16): (b: seq<byte>)
    ensures |b| == 2
  {
    [n / 256, n % 256]
  }

  function GetBE16(b: seq<byte>): u16
    requires |b| >= 2
  {
    256 * (b[0] as int) + b[1]
  }

  function Zeros(n: nat): (z: seq<byte>)
    ensures |z| == n
    ensures forall i :: 0 <= i < n ==> z[i] == 0
  {
    seq(n, _ => 0)
  }

  lemma {:induction false} U16RoundTrip(n: u16, rest: seq<byte>)
    ensures GetU16(U16(n) + rest) == n
    ensures GetBE16(BE16(n) + rest) == n
  {
  }

  lemma {:induction false} U32RoundTrip(n: u32, rest: seq<byte>)
    ensures GetU32(U32(n) + rest) == n
  {
    var d1, d2 := n / 256, n / 65536;
    assert d1 / 256 == d2 && d2 / 256 == n / 16777216;
    assert n == 256 * d1 + n % 256 && d1 == 256 * d2 + d1 % 256 && d2 == 256 * (n / 16777216) + d2 % 256;
  }

  lemma {:induction false} U64RoundTrip(n: u64, rest: seq<byte>)
    ensures GetU64(U64(n) + rest) == n
  {
    hide U32, GetU32;
    var lo, hi := n % 0x1_0000_0000, n / 0x1_0000_0000;
    var b := U64(n) + rest;
    assert b[..4] == U32(lo) + [] && b[4..8] == U32(hi) + [];
    U32RoundTrip(lo, []);
    U32RoundTrip(hi, []);
  }

  lemma {:induction false} I64RoundTrip(n: i64, rest: seq<byte>)
    ensures GetI64(I64(n) + rest) == n
  {
    hide U64, GetU64;
    U64RoundTrip(if n >= 0 then n else n + 0x1_0000_0000_0000_0000, rest);
  }
}
