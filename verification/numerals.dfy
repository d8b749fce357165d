/** Big-endian byte strings of numbers. */
module Numerals {
  import opened Types
  import opened GasRules

  /** The `len` low bytes of `n`. */
  function ToBytes(n: nat, len: nat): (b: seq<Byte>)
    ensures |b| == len
  {
    if len == 0 then [] else ToBytes(n / 256, len - 1) + [n % 256]
  }

  /** The shortest byte string that spells `n`: no leading zero. */
  function Minimal(n: nat): seq<Byte> {
    if n == 0 then [] else Minimal(n / 256) + [n % 256]
  }

  function StripZeros(b: seq<Byte>): seq<Byte> {
    if b != [] && b[0] == 0 then StripZeros(b[1..]) else b
  }

  lemma {:induction false} MinimalValue(n: nat)
    ensures BigEndian(Minimal(n)) == n
    ensures n != 0 ==> Minimal(n)[0] != 0
  {
    if n != 0 {
      MinimalValue(n / 256);
      var b := Minimal(n);
      assert b[..|b| - 1] == Minimal(n / 256);
    }
  }

  lemma {:induction false} MinimalLength(n: nat, len: nat)
    requires n < Pow(256, len)
    ensures |Minimal(n)| <= len
  {
    if n != 0 {
      assert n / 256 < Pow(256, len - 1);
      MinimalLength(n / 256, len - 1);
    }
  }

  lemma {:induction false} StripAppend(b: seq<Byte>, x: Byte)
    ensures StripZeros(b + [x]) == if StripZeros(b) == [] then (if x == 0 then [] else [x]) else StripZeros(b) + [x]
  {
    if b == [] {
      assert b + [x] == [x];
      assert [x][1..] == [];
    } else if b[0] == 0 {
      assert (b + [x])[1..] == b[1..] + [x];
      StripAppend(b[1..], x);
    }
  }

  /** Dropping the leading zeros of a fixed-width number leaves its minimal form. */
  lemma {:induction false} StripIsMinimal(n: nat, len: nat)
    requires n < Pow(256, len)
    ensures StripZeros(ToBytes(n, len)) == Minimal(n)
  {
    if len > 0 {
      assert n / 256 < Pow(256, len - 1);
      StripIsMinimal(n / 256, len - 1);
      StripAppend(ToBytes(n / 256, len - 1), n % 256);
    }
  }

  lemma MinimalAppend(n: nat, x: Byte)
    requires n != 0 || x != 0
    ensures Minimal(256 * n + x) == Minimal(n) + [x]
  {
    assert (256 * n + x) / 256 == n && (256 * n + x) % 256 == x;
  }

  /** A byte string without a leading zero is the minimal form of what it spells. */
  lemma {:induction false} MinimalIsUnique(b: seq<Byte>)
    requires b != [] ==> b[0] != 0
    ensures Minimal(BigEndian(b)) == b
  {
    if b != [] {
      var front, last := b[..|b| - 1], b[|b| - 1];
      MinimalIsUnique(front);
      assert front != [] ==> BigEndian(front) != 0;
      MinimalAppend(BigEndian(front), last);
      assert b == front + [last];
    }
  }
}
