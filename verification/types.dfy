/** Scalars and small containers shared by every module. */
module Types {

  type Byte = b: int | 0 <= b < 256

  /** A 256-bit machine word.  The modules that import this type only compare words, test them
      for zero, and add or subtract balances; where the width matters it is written out. */
  type Word = nat

  /** A 160-bit account address, as the number its twenty bytes spell. */
  type Address = nat

  datatype Option<+T> = None | Some(value: T)

  /** One storage cell of one account. */
  datatype Slot = Slot(addr: Address, key: Word)

  function Max(a: int, b: int): int {
    if a < b then b else a
  }

  function Min(a: int, b: int): int {
    if a < b then a else b
  }

  /** Division rounding up, the `div_ceil` of the source. */
  function CeilDiv(a: nat, b: nat): (q: nat)
    requires b > 0
    ensures (q - 1) * b < a <= q * b
  {
    CeilDivFits(a, b);
    (a + b - 1) / b
  }

  lemma CeilDivFits(a: nat, b: nat)
    requires b > 0
    ensures var q := (a + b - 1) / b; (q - 1) * b < a <= q * b
  {
    var q := (a + b - 1) / b;
    assert q * b <= a + b - 1 < q * b + b;
  }

  /** The number a big-endian byte string spells. */
  function BigEndian(bytes: seq<Byte>): nat {
    if bytes == [] then 0 else 256 * BigEndian(bytes[..|bytes| - 1]) + bytes[|bytes| - 1]
  }
}
