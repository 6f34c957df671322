/** Fixed-width integers as Rust has them, and the option and result types the other modules share. */
module Machine {
  const U8_SIZE := 0x100
  const U16_SIZE := 0x1_0000
  const U32_SIZE := 0x1_0000_0000
  const U64_MAX := 0xFFFF_FFFF_FFFF_FFFF

  type u8 = x: int | 0 <= x < 0x100
  type u16 = x: int | 0 <= x < 0x1_0000
  type u32 = x: int | 0 <= x < 0x1_0000_0000
  type u64 = x: int | 0 <= x <= 0xFFFF_FFFF_FFFF_FFFF

  datatype Option<+T> = None | Some(value: T)
  {
    predicate IsFailure() {
      None?
    }

    function PropagateFailure<U>(): Option<U>
      requires None?
    {
      None
    }

    function Extract(): T
      requires Some?
    {
      value
    }
  }

  datatype Result<+T> = Ok(value: T) | Err
  {
    predicate IsFailure() {
      Err?
    }

    function PropagateFailure<U>(): Result<U>
      requires Err?
    {
      Err
    }

    function Extract(): T
      requires Ok?
    {
      value
    }
  }

  function Wrap16(n: nat): u16 {
    n % U16_SIZE
  }

  function Wrap32(n: nat): u32 {
    n % U32_SIZE
  }

  lemma WrapAdd(n: nat, k: nat)
    ensures Wrap16(Wrap16(n) + k) == Wrap16(n + k) && Wrap32(Wrap32(n) + k) == Wrap32(n + k)
  {}

  lemma WrapNext(n: nat)
    ensures Wrap16(Wrap16(n) + 1) == Wrap16(n + 1) && Wrap32(Wrap32(n) + 1) == Wrap32(n + 1)
  {}

  /** The value a saturating `u64` counter holds once `n` units were added to it. */
  function Sat(n: nat): u64 {
    if n > U64_MAX then U64_MAX else n
  }

  function SaturatingAdd(a: u64, b: u64): u64 {
    Sat(a + b)
  }

  /** Saturating increments never lose track of the true count: the counter is that count, cut off at the maximum. */
  lemma SaturatingSum(a: nat, b: nat)
    ensures SaturatingAdd(Sat(a), Sat(b)) == Sat(a + b)
    ensures Sat(0) == 0 && Sat(1) == 1
  {}

  const U128_MAX: nat := 0xFFFF_FFFF_FFFF_FFFF_FFFF_FFFF_FFFF_FFFF

  function SaturatingAdd128(a: nat, b: nat): nat {
    if a + b > U128_MAX then U128_MAX else a + b
  }

  function CheckedAdd(a: u64, b: u64): Result<u64> {
    if a + b <= U64_MAX then Ok(a + b) else Err
  }

  function CheckedMul(a: u64, b: u64): Result<u64> {
    if a * b <= U64_MAX then Ok(a * b) else Err
  }

  function CheckedSub(a: u64, b: u64): Result<u64> {
    if b <= a then Ok(a - b) else Err
  }

  /** Checked addition succeeds exactly where checked subtraction can undo it. */
  lemma AddAndSubUndo(a: u64, b: u64, c: u64)
    ensures CheckedAdd(a, b) == Ok(c) <==> CheckedSub(c, a) == Ok(b)
  {}

  function CheckedAdd32(a: u32, b: u32): Result<u32> {
    if a + b < U32_SIZE then Ok(a + b) else Err
  }

  function CheckedMul32(a: u32, b: u32): Result<u32> {
    if a * b < U32_SIZE then Ok(a * b) else Err
  }
}
