/** The opcode table of src/opcodes.rs. */
module Opcodes {
  import opened Types

  const STOP: Byte := 0x00
  const ADD: Byte := 0x01
  const MUL: Byte := 0x02
  const SUB: Byte := 0x03
  const DIV: Byte := 0x04
  const SMOD: Byte := 0x07
  const ADDMOD: Byte := 0x08
  const MULMOD: Byte := 0x09
  const EXP: Byte := 0x0a
  const SIGNEXTEND: Byte := 0x0b
  const LT: Byte := 0x10
  const EQ: Byte := 0x14
  const ISZERO: Byte := 0x15
  const AND: Byte := 0x16
  const XOR: Byte := 0x18
  const NOT: Byte := 0x19
  const BYTE: Byte := 0x1a
  const SAR: Byte := 0x1d
  const CLZ: Byte := 0x1e
  const SHA3: Byte := 0x20
  const ADDRESS: Byte := 0x30
  const BALANCE: Byte := 0x31
  const ORIGIN: Byte := 0x32
  const CALLVALUE: Byte := 0x34
  const CALLDATALOAD: Byte := 0x35
  const CALLDATASIZE: Byte := 0x36
  const CALLDATACOPY: Byte := 0x37
  const CODESIZE: Byte := 0x38
  const CODECOPY: Byte := 0x39
  const GASPRICE: Byte := 0x3a
  const EXTCODESIZE: Byte := 0x3b
  const EXTCODECOPY: Byte := 0x3c
  const RETURNDATASIZE: Byte := 0x3d
  const RETURNDATACOPY: Byte := 0x3e
  const EXTCODEHASH: Byte := 0x3f
  const BLOCKHASH: Byte := 0x40
  const COINBASE: Byte := 0x41
  const CHAINID: Byte := 0x46
  const SELFBALANCE: Byte := 0x47
  const BASEFEE: Byte := 0x48
  const BLOBHASH: Byte := 0x49
  const BLOBBASEFEE: Byte := 0x4a
  const POP: Byte := 0x50
  const MLOAD: Byte := 0x51
  const MSTORE8: Byte := 0x53
  const SLOAD: Byte := 0x54
  const SSTORE: Byte := 0x55
  const JUMP: Byte := 0x56
  const JUMPI: Byte := 0x57
  const PC: Byte := 0x58
  const GAS: Byte := 0x5a
  const JUMPDEST: Byte := 0x5b
  const TLOAD: Byte := 0x5c
  const TSTORE: Byte := 0x5d
  const MCOPY: Byte := 0x5e
  const PUSH0: Byte := 0x5f
  const PUSH1: Byte := 0x60
  const PUSH32: Byte := 0x7f
  const DUP1: Byte := 0x80
  const DUP16: Byte := 0x8f
  const SWAP1: Byte := 0x90
  const SWAP16: Byte := 0x9f
  const LOG0: Byte := 0xa0
  const LOG4: Byte := 0xa4
  const CREATE: Byte := 0xf0
  const CALL: Byte := 0xf1
  const CALLCODE: Byte := 0xf2
  const RETURN: Byte := 0xf3
  const DELEGATECALL: Byte := 0xf4
  const CREATE2: Byte := 0xf5
  const STATICCALL: Byte := 0xfa
  const REVERT: Byte := 0xfd
  const INVALID: Byte := 0xfe
  const SELFDESTRUCT: Byte := 0xff

  /** Bytes the opcode table defines. */
  predicate Defined(b: Byte) {
    || b <= SIGNEXTEND || LT <= b <= CLZ || b == SHA3 || ADDRESS <= b <= BLOBBASEFEE
    || POP <= b <= LOG4 || CREATE <= b <= CREATE2 || b == STATICCALL || b >= REVERT
  }

  /** The `code` field of a table entry: undefined bytes stand for INVALID. */
  function DefinedCode(b: Byte): Byte {
    if Defined(b) then b else INVALID
  }

  /** The `n` field of a table entry: the number in the names PUSHn, DUPn, SWAPn and LOGn. */
  function Arity(b: Byte): nat {
    if PUSH1 <= b <= PUSH32 then b - PUSH0
    else if DUP1 <= b <= DUP16 then b - PUSH32
    else if SWAP1 <= b <= SWAP16 then b - DUP16
    else if LOG0 <= b <= LOG4 then b - LOG0
    else 0
  }

  function PushLen(b: Byte): nat {
    if PUSH1 <= b <= PUSH32 then Arity(b) else 0
  }

  /** The numbers of the opcodes the interpreter treats one by one, in the table's order. */
  lemma OpcodeNumbers()
    ensures STOP == 0x00 && EXP == 0x0a && SHA3 == 0x20 && BALANCE == 0x31 && CALLDATACOPY == 0x37 && CODECOPY == 0x39
    ensures EXTCODESIZE == 0x3b && EXTCODECOPY == 0x3c && RETURNDATACOPY == 0x3e && EXTCODEHASH == 0x3f
    ensures SELFBALANCE == 0x47 && MLOAD == 0x51
    ensures MSTORE8 == 0x53 && SLOAD == 0x54 && SSTORE == 0x55 && JUMP == 0x56 && JUMPI == 0x57 && JUMPDEST == 0x5b
    ensures TSTORE == 0x5d && MCOPY == 0x5e && LOG0 == 0xa0 && LOG4 == 0xa4 && CREATE == 0xf0 && CALL == 0xf1
    ensures CALLCODE == 0xf2 && RETURN == 0xf3 && DELEGATECALL == 0xf4 && CREATE2 == 0xf5
    ensures STATICCALL == 0xfa && REVERT == 0xfd
    ensures INVALID == 0xfe && SELFDESTRUCT == 0xff
  {
  }
}
