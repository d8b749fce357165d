/** Hexadecimal words: the right-aligned parser of evm-common/src/lib.rs and the printer and reader of
    evm-common/src/word.rs. */
module HexCodec {
  import opened Types
  import opened GasRules
  import opened Numerals

  function DigitValue(c: char): (v: Option<nat>)
    ensures v.Some? ==> v.value < 16
  {
    if '0' <= c <= '9' then Some(c as int - '0' as int)
    else if 'a' <= c <= 'f' then Some(c as int - 'a' as int + 10)
    else if 'A' <= c <= 'F' then Some(c as int - 'A' as int + 10)
    else None
  }

  predicate AllDigits(s: string) {
    forall i :: 0 <= i < |s| ==> DigitValue(s[i]).Some?
  }

  /** The number a string of hex digits spells. */
  function HexValue(s: string): nat
    requires AllDigits(s)
  {
    if s == [] then 0 else 16 * HexValue(s[..|s| - 1]) + DigitValue(s[|s| - 1]).value
  }

  function Skip(s: string): nat {
    if |s| > 1 && s[0] == '0' && s[1] == 'x' then 2 else 0
  }

  /** What parsing into `n` bytes means: the digits after an optional 0x, if they are digits and fit. */
  function Parsed(s: string, n: nat): Option<nat> {
    var digits := s[Skip(s)..];
    if |digits| <= 2 * n && AllDigits(digits) then Some(HexValue(digits)) else None
  }

  lemma HexOfNothing()
    ensures HexValue([]) == 0
  {
  }

  lemma HexAppend(s: string, c: char)
    requires AllDigits(s) && DigitValue(c).Some?
    ensures AllDigits(s + [c]) && HexValue(s + [c]) == 16 * HexValue(s) + DigitValue(c).value
  {
    hide DigitValue;
    assert (s + [c])[..|s|] == s;
  }

  lemma {:induction false} HexPrepend(c: char, s: string)
    requires DigitValue(c).Some? && AllDigits(s)
    ensures AllDigits([c] + s) && HexValue([c] + s) == DigitValue(c).value * Pow(16, |s|) + HexValue(s)
  {
    hide DigitValue, HexValue;
    HexOfNothing();
    if s == [] {
      HexAppend([], c);
      assert [c] + s == [] + [c];
    } else {
      var front, last := s[..|s| - 1], s[|s| - 1];
      HexPrepend(c, front);
      HexAppend(front, last);
      HexAppend([c] + front, last);
      assert s == front + [last] && [c] + s == ([c] + front) + [last];
      var d, p := DigitValue(c).value, Pow(16, |front|);
      assert 16 * (d * p) == d * (16 * p);
    }
  }

  /** Changing one byte moves the number by that much at the byte's place. */
  lemma {:induction false} BigEndianUpdate(b: seq<Byte>, k: nat, x: Byte)
    requires k < |b|
    ensures BigEndian(b[k := x]) == BigEndian(b) + (x - b[k]) * Pow(256, |b| - 1 - k)
  {
    var front, front' := b[..|b| - 1], b[k := x][..|b| - 1];
    if k == |b| - 1 {
      assert front == front';
    } else {
      assert front' == front[k := x];
      BigEndianUpdate(front, k, x);
      var p := Pow(256, |front| - 1 - k);
      assert 256 * ((x - b[k]) * p) == (x - b[k]) * (256 * p);
    }
  }

  lemma {:induction false} Pow16Even(m: nat)
    ensures Pow(16, 2 * m) == Pow(256, m) && Pow(16, 2 * m + 1) == 16 * Pow(256, m)
  {
    if m > 0 {
      Pow16Even(m - 1);
      assert Pow(16, 2 * m) == 16 * Pow(16, 2 * (m - 1) + 1);
    }
  }

  lemma {:induction false} ZerosSpellZero(b: seq<Byte>)
    requires forall i :: 0 <= i < |b| ==> b[i] == 0
    ensures BigEndian(b) == 0
  {
    if b != [] {
      ZerosSpellZero(b[..|b| - 1]);
    }
  }

  /** One more digit: `done` digits are in place, the next one goes into byte `k`. */
  lemma DigitStep(s: string, at: nat, b: seq<Byte>, k: nat, x: Byte, m: nat)
    requires at < |s| && AllDigits(s[at + 1..]) && DigitValue(s[at]).Some?
    requires k < |b| && |b| - 1 - k == m && BigEndian(b) == HexValue(s[at + 1..])
    requires var d, done := DigitValue(s[at]).value, |s| - at - 1;
             (done == 2 * m && x - b[k] == d) || (done == 2 * m + 1 && x - b[k] == 16 * d)
    ensures AllDigits(s[at..]) && BigEndian(b[k := x]) == HexValue(s[at..])
  {
    hide DigitValue, HexValue, BigEndian, Pow;
    var rest, d := s[at + 1..], DigitValue(s[at]).value;
    assert s[at..] == [s[at]] + rest;
    HexPrepend(s[at], rest);
    BigEndianUpdate(b, k, x);
    Pow16Even(m);
    assert (16 * d) * Pow(256, m) == d * (16 * Pow(256, m));
  }

  /** The parser's state: the digits of `s` from `chrIdx` on are in place, and every byte not yet reached is zero. */
  ghost predicate Placed(s: string, b: seq<Byte>, chrIdx: nat, binIdx: nat) {
    && chrIdx <= |s| && AllDigits(s[chrIdx..]) && BigEndian(b) == HexValue(s[chrIdx..])
    && var done := |s| - chrIdx;
       && binIdx == |b| - done / 2
       && (forall i :: 0 <= i < binIdx - 1 && i < |b| ==> b[i] == 0)
       && (0 < binIdx <= |b| ==> b[binIdx - 1] < if done % 2 == 0 then 1 else 16)
  }

  lemma LowDigit(s: string, b: seq<Byte>, chrIdx: nat, binIdx: nat)
    requires Placed(s, b, chrIdx, binIdx) && 0 < chrIdx && 0 < binIdx <= |b|
    requires (|s| - chrIdx) % 2 == 0 && DigitValue(s[chrIdx - 1]).Some?
    ensures Placed(s, b[binIdx - 1 := DigitValue(s[chrIdx - 1]).value], chrIdx - 1, binIdx)
  {
    hide HexValue, BigEndian, DigitValue, AllDigits;
    DigitStep(s, chrIdx - 1, b, binIdx - 1, DigitValue(s[chrIdx - 1]).value, |b| - binIdx);
  }

  lemma HighDigit(s: string, b: seq<Byte>, chrIdx: nat, binIdx: nat)
    requires Placed(s, b, chrIdx, binIdx) && 0 < chrIdx && 0 < binIdx <= |b|
    requires (|s| - chrIdx) % 2 == 1 && DigitValue(s[chrIdx - 1]).Some?
    ensures b[binIdx - 1] < 16
    ensures Placed(s, b[binIdx - 1 := b[binIdx - 1] + 16 * DigitValue(s[chrIdx - 1]).value], chrIdx - 1, binIdx - 1)
  {
    hide HexValue, BigEndian, DigitValue, AllDigits;
    DigitStep(s, chrIdx - 1, b, binIdx - 1, b[binIdx - 1] + 16 * DigitValue(s[chrIdx - 1]).value, |b| - binIdx);
  }

  /** Nothing is placed before the first digit. */
  lemma NothingPlaced(s: string, b: seq<Byte>)
    requires forall i :: 0 <= i < |b| ==> b[i] == 0
    ensures Placed(s, b, |s|, |b|)
  {
    ZerosSpellZero(b);
    assert s[|s|..] == [];
  }

  /** `decode`: digits are written from the right, two to a byte.  It fails exactly when the digits are too
      many or not digits, and otherwise the bytes spell the parsed number. */
  method DecodeHex(s: string, n: nat) returns (ok: bool, bytes: array<Byte>)
    ensures fresh(bytes) && bytes.Length == n
    ensures ok <==> Parsed(s, n).Some?
    ensures ok ==> BigEndian(bytes[..]) == Parsed(s, n).value
  {
    hide DigitValue, HexValue, BigEndian, Placed;
    bytes := new Byte[n](_ => 0);
    NothingPlaced(s, bytes[..]);
    if |s| == 0 {
      PlacedAll(s, bytes[..], 0, n);
      return true, bytes;
    }
    var parity, skip := |s| % 2, Skip(s);
    if |s| - skip > n * 2 {
      return false, bytes;
    }
    var chrIdx, binIdx: nat := |s|, n;
    while chrIdx > skip
      invariant skip <= chrIdx <= |s| && binIdx == n - (|s| - chrIdx) / 2
      invariant Placed(s, bytes[..], chrIdx, binIdx)
    {
      var chr := DigitValue(s[chrIdx - 1]);
      if chr.None? {
        assert s[skip..][chrIdx - 1 - skip] == s[chrIdx - 1];
        return false, bytes;
      }
      ghost var before := bytes[..];
      if chrIdx % 2 == parity {
        LowDigit(s, before, chrIdx, binIdx);
        bytes[binIdx - 1] := chr.value;
        assert bytes[..] == before[binIdx - 1 := chr.value];
      } else {
        HighDigit(s, before, chrIdx, binIdx);
        bytes[binIdx - 1] := bytes[binIdx - 1] + 16 * chr.value;
        assert bytes[..] == before[binIdx - 1 := before[binIdx - 1] + 16 * chr.value];
        binIdx := binIdx - 1;
      }
      chrIdx := chrIdx - 1;
    }
    PlacedAll(s, bytes[..], skip, binIdx);
    ok := true;
  }

  lemma PlacedAll(s: string, b: seq<Byte>, chrIdx: nat, binIdx: nat)
    requires Placed(s, b, chrIdx, binIdx)
    ensures AllDigits(s[chrIdx..]) && BigEndian(b) == HexValue(s[chrIdx..])
  {
  }

  // ----- printing and reading words -----------------------------------------------------

  function DigitChar(d: nat): (c: char)
    requires d < 16
    ensures DigitValue(c) == Some(d)
  {
    "0123456789abcdef"[d]
  }

  /** Two lower-case digits per byte. */
  function EncodeHex(b: seq<Byte>): (s: string)
    ensures |s| == 2 * |b| && AllDigits(s)
  {
    if b == [] then [] else EncodeHex(b[..|b| - 1]) + [DigitChar(b[|b| - 1] / 16), DigitChar(b[|b| - 1] % 16)]
  }

  function SkipZeroDigits(s: string): string {
    if s != [] && s[0] == '0' then SkipZeroDigits(s[1..]) else s
  }

  /** `Serialize` for words: 0x, then the digits without leading zeros, but at least one. */
  function Serialize(w: nat): string {
    var hex := SkipZeroDigits(EncodeHex(ToBytes(w, 32)));
    "0x" + if hex == [] then "0" else hex
  }

  /** `trim_start_matches("0x")` removes the prefix as often as it is there. */
  function TrimPrefix(s: string): string {
    if Skip(s) == 2 then TrimPrefix(s[2..]) else s
  }

  /** `Deserialize` for words. */
  method Deserialize(s: string) returns (r: Option<Word>)
    ensures r == Parsed(TrimPrefix(s), 32)
  {
    hide DigitValue, HexValue, AllDigits;
    var t := s;
    while Skip(t) == 2
      invariant TrimPrefix(t) == TrimPrefix(s)
      decreases |t|
    {
      t := t[2..];
    }
    var ok, bytes := DecodeHex(t, 32);
    r := if ok then Some(BigEndian(bytes[..])) else None;
  }

  lemma {:induction false} EncodeHexValue(b: seq<Byte>)
    ensures HexValue(EncodeHex(b)) == BigEndian(b)
  {
    hide DigitValue;
    if b != [] {
      var front, last := b[..|b| - 1], b[|b| - 1];
      EncodeHexValue(front);
      var s := EncodeHex(b);
      assert s[..|s| - 1] == EncodeHex(front) + [DigitChar(last / 16)];
      assert s[..|s| - 1][..|s| - 2] == EncodeHex(front);
    }
  }

  lemma {:induction false} ToBytesValue(n: nat, len: nat)
    requires n < Pow(256, len)
    ensures BigEndian(ToBytes(n, len)) == n
  {
    if len > 0 {
      ToBytesValue(n / 256, len - 1);
      var b := ToBytes(n, len);
      assert b[..|b| - 1] == ToBytes(n / 256, len - 1);
    }
  }

  lemma {:induction false} SkippingKeepsValue(s: string)
    requires AllDigits(s)
    ensures var t := SkipZeroDigits(s); AllDigits(t) && |t| <= |s| && HexValue(t) == HexValue(s)
  {
    if s != [] && s[0] == '0' {
      assert s == ['0'] + s[1..];
      HexPrepend('0', s[1..]);
      assert DigitValue('0') == Some(0);
      SkippingKeepsValue(s[1..]);
    }
  }

  lemma DigitsHaveNoPrefix(s: string)
    requires AllDigits(s)
    ensures Skip(s) == 0 && TrimPrefix(s) == s
  {
    if |s| > 1 {
      assert DigitValue(s[1]).Some?;
    }
  }

  /** Reading what was printed gives the word back, for every 256-bit word. */
  lemma WordRoundTrip(w: nat)
    requires w < Pow(256, 32)
    ensures Parsed(TrimPrefix(Serialize(w)), 32) == Some(w)
  {
    hide Pow, ToBytes, EncodeHex, SkipZeroDigits, HexValue, BigEndian, DigitValue;
    var digits := EncodeHex(ToBytes(w, 32));
    ToBytesValue(w, 32);
    EncodeHexValue(ToBytes(w, 32));
    SkippingKeepsValue(digits);
    var stripped := SkipZeroDigits(digits);
    var t := if stripped == [] then "0" else stripped;
    ZeroDigit();
    HexOfNothing();
    DigitsHaveNoPrefix(t);
    assert Serialize(w) == "0x" + t && ("0x" + t)[2..] == t;
    assert t[0..] == t;
  }

  lemma ZeroDigit()
    ensures AllDigits("0") && HexValue("0") == 0
  {
    assert "0"[..0] == [];
    assert DigitValue('0') == Some(0);
  }
}
