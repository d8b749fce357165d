/** What an instruction, a call and a whole frame do, as relations between values: the specification the
    interpreter's methods are proved against.  A frame's run is a sequence of ticks from its start to its end, and
    every child frame in it has a run of its own. */
module Semantics {
  import opened Types
  import opened Opcodes
  import opened State
  import opened Journal
  import opened Segments
  import opened Limits
  import opened GasRules
  import opened Metering
  import opened Ledger
  import opened Decoder

  const STACK_LIMIT: nat := 1024
  const ALLOCATION_SANITY_LIMIT: nat := 2 * 1024 * 1024

  /** `Panic` stands for a Rust panic: the process ends and nothing is promised. */
  datatype StepResult = Ok(cost: int) | Halt(cost: int) | Err | Panic

  datatype CallType = Plain | Callcode | Delegate | Static | Create1 | Create2

  datatype Context = Context(created: Address, depth: nat, callType: CallType, isStatic: bool)

  datatype Call = Call(data: seq<Byte>, value: Word, from: Address, to: Address)

  /** A frame and the world it works on, at one moment. */
  datatype Snap = Snap(pc: nat, gas: Gas, stack: nat, memory: nat, memCost: int, stopped: bool, reverted: bool,
                       ret: seq<Byte>, touches: seq<Touch>, marks: Marks, ran: set<Byte>, world: World)

  /** A step that fails leaves world, journal and program counter alone. */
  predicate Stuck(s: Snap, t: Snap) {
    && t.pc == s.pc && t.ret == s.ret && t.touches == s.touches && t.marks == s.marks && t.ran == s.ran
    && t.world == s.world && t.gas.limit == s.gas.limit && t.gas.refund == s.gas.refund
  }

  /** Memory grown to cover `end`, all of it paid for. */
  function Grow(s: Snap, end: nat): Snap {
    s.(memory := Resized(s.memory, end), memCost := MemoryPrice(Resized(s.memory, end) / 32))
  }

  predicate TooFar(s: Snap, end: nat) {
    end > s.memory && end > ALLOCATION_SANITY_LIMIT
  }

  // ----- stack instructions -------------------------------------------------------------

  /** Fixed cost, words that must be there, words taken, words given. */
  datatype Shape = Shape(cost: nat, needs: nat, pops: nat, pushes: nat)

  /** Instructions that check their gas first and then only work on the stack. */
  function ShapeOf(op: Byte): Option<Shape> {
    if op == ADD || op == SUB then Some(Shape(3, 2, 2, 1))
    else if op == MUL || DIV <= op <= SMOD || op == SIGNEXTEND then Some(Shape(5, 2, 2, 1))
    else if op == ADDMOD || op == MULMOD then Some(Shape(8, 3, 3, 1))
    else if LT <= op <= EQ || AND <= op <= XOR || BYTE <= op <= SAR then Some(Shape(3, 2, 2, 1))
    else if op == ISZERO || op == NOT || op == CALLDATALOAD || op == BLOBHASH then Some(Shape(3, 1, 1, 1))
    else if op == CLZ then Some(Shape(5, 1, 1, 1))
    else if op == ADDRESS || ORIGIN <= op <= CALLVALUE || op == CALLDATASIZE then Some(Shape(2, 0, 0, 1))
    else if op == CODESIZE || op == GASPRICE || op == RETURNDATASIZE then Some(Shape(2, 0, 0, 1))
    else if op == BLOCKHASH then Some(Shape(20, 1, 1, 1))
    else if COINBASE <= op <= CHAINID || op == BASEFEE || op == BLOBBASEFEE || PC <= op <= GAS || op == PUSH0 then
      Some(Shape(2, 0, 0, 1))
    else if op == POP then Some(Shape(2, 1, 1, 0))
    else if op == JUMPDEST then Some(Shape(1, 0, 0, 0))
    else if op == TLOAD then Some(Shape(100, 1, 1, 1))
    else if PUSH1 <= op <= PUSH32 then Some(Shape(3, 0, 0, 1))
    else if DUP1 <= op <= DUP16 then Some(Shape(3, Arity(op), 0, 1))
    else if SWAP1 <= op <= SWAP16 then Some(Shape(3, Arity(op) + 1, 0, 0))
    else None
  }

  /** The prices and stack effects, byte by byte. */
  lemma StackTable(op: Byte)
    ensures op in {0x01, 0x03, 0x10, 0x11, 0x12, 0x13, 0x14, 0x16, 0x17, 0x18, 0x1a, 0x1b, 0x1c, 0x1d} ==>
              ShapeOf(op) == Some(Shape(3, 2, 2, 1))
    ensures op in {0x02, 0x04, 0x05, 0x06, 0x07, 0x0b} ==> ShapeOf(op) == Some(Shape(5, 2, 2, 1))
    ensures op in {0x08, 0x09} ==> ShapeOf(op) == Some(Shape(8, 3, 3, 1))
    ensures op in {0x15, 0x19, 0x35, 0x49} ==> ShapeOf(op) == Some(Shape(3, 1, 1, 1))
    ensures op in {0x30, 0x32, 0x33, 0x34, 0x36, 0x38, 0x3a, 0x3d, 0x48, 0x4a, 0x58, 0x59, 0x5a, 0x5f} ==>
              ShapeOf(op) == Some(Shape(2, 0, 0, 1))
    ensures 0x41 <= op <= 0x46 ==> ShapeOf(op) == Some(Shape(2, 0, 0, 1))
    ensures ShapeOf(0x1e) == Some(Shape(5, 1, 1, 1)) && ShapeOf(0x40) == Some(Shape(20, 1, 1, 1))
    ensures ShapeOf(0x50) == Some(Shape(2, 1, 1, 0)) && ShapeOf(0x5b) == Some(Shape(1, 0, 0, 0))
    ensures ShapeOf(0x5c) == Some(Shape(100, 1, 1, 1))
    ensures 0x60 <= op <= 0x7f ==> ShapeOf(op) == Some(Shape(3, 0, 0, 1))
    ensures 0x80 <= op <= 0x8f ==> ShapeOf(op) == Some(Shape(3, op - 0x7f, 0, 1))
    ensures 0x90 <= op <= 0x9f ==> ShapeOf(op) == Some(Shape(3, op - 0x8e, 0, 0))
    ensures 0xa0 <= op <= 0xa4 ==> Arity(op) == op - 0xa0
  {
  }

  predicate StackSpec(s: Snap, t: Snap, op: Byte, shape: Shape, r: StepResult) {
    var height := s.stack - shape.pops + shape.pushes;
    if s.gas.Remaining() < shape.cost then r == Halt(shape.cost) && t == s
    else if s.stack < shape.needs then r == Err && Stuck(s, t)
    else if op == MULMOD && r.Panic? then true
    else if height > STACK_LIMIT then r == Err && Stuck(s, t)
    else height >= 0 && r == Ok(shape.cost) && t == s.(stack := height)
  }

  /** EXP and SHA3, by the size of the exponent or of the hashed range. */
  predicate PricedSpec(s: Snap, t: Snap, op: Byte, size: nat, r: StepResult) {
    var cost := if op == EXP then 10 + 50 * Min(size, 32) else 30 + 6 * CeilDiv(size, 32);
    if s.stack < 2 || (op == SHA3 && size > ALLOCATION_SANITY_LIMIT) then r == Err && Stuck(s, t)
    else if s.gas.Remaining() < cost then r == Halt(cost) && Stuck(s, t)
    else r == Ok(cost) && t == s.(stack := s.stack - 1)
  }

  // ----- memory instructions ------------------------------------------------------------

  predicate MemorySpec(s: Snap, t: Snap, op: Byte, offset: nat, r: StepResult) {
    var operands, end := if op == MLOAD then 1 else 2, offset + if op == MSTORE8 then 1 else 32;
    if s.stack < operands || TooFar(s, end) then r == Err && Stuck(s, t)
    else
      var g := Grow(s, end);
      var cost := 3 + g.memCost - s.memCost;
      if s.gas.Remaining() < cost then r == Halt(cost) && Stuck(s, t)
      else r == Ok(cost) && t == g.(stack := s.stack - if op == MLOAD then 0 else 2)
  }

  /** Bytes there are to copy. */
  function CopySource(op: Byte, code: Bytecode, data: seq<Byte>): nat {
    if op == CALLDATACOPY then |data| else |code.bytecode|
  }

  predicate CopySpec(s: Snap, t: Snap, op: Byte, available: nat, dest: nat, from: nat, size: nat, r: StepResult) {
    var idle := op == CALLDATACOPY && size == 0;
    var oversized := op != RETURNDATACOPY && from + size > Max(available, ALLOCATION_SANITY_LIMIT);
    if s.stack < 3 || (!idle && (TooFar(s, dest + size) || oversized)) then r == Err && Stuck(s, t)
    else
      var g := if idle then s else Grow(s, dest + size);
      r == Ok(3 + 3 * CeilDiv(size, 32) + g.memCost - s.memCost) && t == g.(stack := s.stack - 3)
  }

  predicate McopySpec(s: Snap, t: Snap, dest: nat, from: nat, size: nat, r: StepResult) {
    var cost, end := 3 + 3 * CeilDiv(size, 32), Max(dest, from) + size;
    if s.stack < 3 then r == Err && Stuck(s, t)
    else if s.gas.Remaining() < cost then r == Halt(cost) && Stuck(s, t)
    else if size > 0 && end > s.memory && dest + size > ALLOCATION_SANITY_LIMIT then r == Err && Stuck(s, t)
    else
      var g := if size == 0 then s else Grow(s, end);
      var total := cost + g.memCost - s.memCost;
      if s.gas.Remaining() < total then r == Halt(total) && Stuck(s, t)
      else r == Ok(total) && t == g.(stack := s.stack - 3)
  }

  /** The memory a LOG reads is neither grown nor priced. */
  predicate LogSpec(s: Snap, t: Snap, op: Byte, ctx: Context, offset: nat, size: nat, r: StepResult) {
    var cost := 375 + 375 * Arity(op) + 8 * size;
    if ctx.callType == Static || s.stack < 2 then r == Err && Stuck(s, t)
    else if s.gas.Remaining() < cost then r == Halt(cost) && t == s
    else if s.stack < 2 + Arity(op) || TooFar(s, offset + size) then r == Err && Stuck(s, t)
    else r == Ok(cost) && t == s.(stack := s.stack - 2 - Arity(op))
  }

  predicate ReturnSpec(s: Snap, t: Snap, op: Byte, offset: nat, size: nat, r: StepResult) {
    if s.stack < 2 then r == Err && Stuck(s, t)
    else DeliverSpec(s.(stack := s.stack - 2, stopped := true, reverted := op == REVERT), t, offset, size, r)
  }

  /** RETURN and REVERT once their operands are taken. */
  predicate DeliverSpec(s: Snap, t: Snap, offset: nat, size: nat, r: StepResult) {
    if size > 0 && TooFar(s, offset + size) then r == Err && Stuck(s, t)
    else
      var g := if size == 0 then s else Grow(s, offset + size);
      r == Ok(g.memCost - s.memCost) && |t.ret| == size && t == g.(ret := t.ret)
  }

  predicate JumpSpec(s: Snap, t: Snap, op: Byte, code: Bytecode, offset: nat, taken: bool, moved: bool, r: StepResult) {
    var cost, operands := if op == JUMP then 8 else 10, if op == JUMP then 1 else 2;
    && (op == JUMP ==> taken)
    && if s.gas.Remaining() < cost then r == Halt(cost) && t == s && !moved
       else if s.stack < operands then r == Err && Stuck(s, t) && !moved
       else if taken && !(offset in ValidDests(code.bytecode, 0) || (op == JUMPI && offset == 0)) then
         r == Halt(cost) && Stuck(s, t) && !moved
       else
         && r == Ok(cost) && moved == taken && t == s.(stack := s.stack - operands, pc := t.pc)
         && if taken then t.pc < |code.instructions| && code.instructions[t.pc].offset == offset else t.pc == s.pc
  }

  // ----- account instructions -----------------------------------------------------------

  /** Addresses 1 to 10, and 0x100. */
  predicate IsPrecompile(a: Address) {
    1 <= a <= 10 || a == 0x100
  }

  /** Precompiles and warm addresses are cheap and leave no trace (EIP-2929). */
  predicate Cheap(w: World, a: Address) {
    IsPrecompile(a) || a in w.warmAddresses
  }

  function AccessPrice(w: World, a: Address): nat {
    if Cheap(w, a) then 100 else 2600
  }

  function AccessEntries(w: World, a: Address): seq<Touch> {
    if Cheap(w, a) then [] else [WarmUp(a)]
  }

  function Accessed(w: World, a: Address): World {
    if Cheap(w, a) then w else Segments.WarmAddress(w, a)
  }

  function AccountNote(remote: Remote, w: World, op: Byte, a: Address): Touch {
    if op == BALANCE then GetValue(a, AccountOf(remote, w, a).value) else GetCode(a, AccountOf(remote, w, a).code)
  }

  /** BALANCE, EXTCODESIZE, EXTCODEHASH. */
  predicate AccountSpec(remote: Remote, s: Snap, t: Snap, op: Byte, a: Address, r: StepResult) {
    var cost := AccessPrice(s.world, a);
    if s.stack < 1 then r == Err && Stuck(s, t)
    else if s.gas.Remaining() < cost then
      && r == Halt(cost)
      && t == s.(stack := s.stack - 1, world := Accessed(s.world, a), touches := s.touches + AccessEntries(s.world, a))
    else
      && r == Ok(cost)
      && t == s.(world := Pull(remote, Accessed(s.world, a), a),
                 touches := s.touches + AccessEntries(s.world, a) + [AccountNote(remote, s.world, op, a)])
  }

  /** The account is cached and noted. */
  function Noted(remote: Remote, s: Snap, op: Byte, a: Address): Snap {
    s.(world := Pull(remote, s.world, a), touches := s.touches + [AccountNote(remote, s.world, op, a)])
  }

  predicate SelfBalanceSpec(remote: Remote, s: Snap, t: Snap, self: Address, r: StepResult) {
    var g := Noted(remote, s, BALANCE, self);
    if s.gas.Remaining() < 5 then r == Halt(5) && t == s
    else if s.stack >= STACK_LIMIT then r == Err && Stuck(g, t)
    else r == Ok(5) && t == g.(stack := s.stack + 1)
  }

  /** EXTCODECOPY: no flat price beyond the words copied, the growth and the access. */
  predicate ExtCodeCopySpec(remote: Remote, s: Snap, t: Snap, a: Address, dest: nat, from: nat, size: nat,
                            r: StepResult) {
    if s.stack < 4 then r == Err && Stuck(s, t)
    else CodeSpec(remote, s.(stack := s.stack - 4), t, a, dest, from, size, r)
  }

  /** EXTCODECOPY once its operands are taken. */
  predicate CodeSpec(remote: Remote, s: Snap, t: Snap, a: Address, dest: nat, from: nat, size: nat, r: StepResult) {
    var g := Noted(remote, s, EXTCODECOPY, a);
    var source := Max(|AccountOf(remote, s.world, a).code|, ALLOCATION_SANITY_LIMIT);
    if TooFar(s, dest + size) || from + size > source then r == Err && Stuck(g, t)
    else
      var h := Grow(g, dest + size);
      && r == Ok(3 * CeilDiv(size, 32) + h.memCost - s.memCost + AccessPrice(g.world, a))
      && t == h.(world := Accessed(g.world, a), touches := g.touches + AccessEntries(g.world, a))
  }

  /** The price of SELFDESTRUCT, for the world it is executed in. */
  function DestructPrice(remote: Remote, w: World, heir: Address): nat {
    5000 + (if heir in w.warmAddresses then 0 else 2600)
         + if AccountOf(remote, w, heir) == Account(0, 0, []) then 25_000 else 0
  }

  predicate DestructSpec(remote: Remote, s: Snap, t: Snap, self: Address, ctx: Context, heir: Address, r: StepResult) {
    var w := Pull(remote, Pull(remote, s.world, heir), self);
    if ctx.callType == Static || s.stack < 1 then r == Err && Stuck(s, t)
    else
      && r == Ok(DestructPrice(remote, s.world, heir))
      && t == s.(stack := s.stack - 1, world := Drained(remote, w, self, heir),
                 marks := Join(s.marks, DrainMarks(remote, w, self, heir)))
  }

  // ----- storage instructions -----------------------------------------------------------

  predicate SloadSpec(remote: Remote, s: Snap, t: Snap, k: Slot, r: StepResult) {
    var w := s.world;
    var cost := if k in w.warmSlots then 100 else 2100;
    if s.stack < 1 then r == Err && Stuck(s, t)
    else if s.gas.Remaining() < cost then
      r == Halt(cost) && t == s.(world := WarmSlot(w, k), marks := Join(s.marks, LeakMarks(w, k)))
    else
      && r == Ok(cost)
      && t == s.(world := Pull(remote, Loaded(remote, w, k), k.addr),
                 touches := s.touches + [GetState(k, Read(remote.storage, w.cache, k), k in w.warmSlots)])
  }

  /** The value `original` gives for a slot that has just been fetched. */
  function OriginalOf(remote: Remote, w: World, k: Slot): Word {
    if k in w.cache.original then w.cache.original[k] else Read(remote.storage, w.cache, k)
  }

  predicate SstoreSpec(remote: Remote, s: Snap, t: Snap, ctx: Context, k: Slot, next: Word, r: StepResult) {
    if ctx.isStatic || s.stack < 2 then r == Err && Stuck(s, t)
    else StoreSpec(remote, s.(stack := s.stack - 2), t, k, next, r)
  }

  /** SSTORE once its operands are taken. */
  predicate StoreSpec(remote: Remote, s: Snap, t: Snap, k: Slot, next: Word, r: StepResult) {
    var w := s.world;
    var original, val, isWarm := OriginalOf(remote, w, k), Read(remote.storage, w.cache, k), k in w.warmSlots;
    var cost, back := Cost(original, val, next, isWarm), Refund(original, val, next);
    if s.gas.Remaining() + back < 0 || s.gas.Remaining() < cost then
      && r == Halt(0)
      && t == s.(world := Pull(remote, Loaded(remote, w, k), k.addr), marks := Join(s.marks, LeakMarks(w, k)))
    else
      && r == Ok(cost)
      && t == s.(gas := s.gas.(refund := s.gas.refund + back),
                 world := Pull(remote, Stored(remote, w, k, next), k.addr),
                 touches := s.touches + [SetState(k, val, next, isWarm)])
  }

  /** TSTORE, which no static frame refuses. */
  predicate TstoreSpec(s: Snap, t: Snap, k: Slot, next: Word, r: StepResult) {
    var w := s.world;
    var val := if k in w.transient then w.transient[k] else 0;
    if s.gas.Remaining() < 100 then r == Halt(100) && t == s
    else if s.stack < 2 then r == Err && Stuck(s, t)
    else
      && r == Ok(100)
      && t == s.(stack := s.stack - 2, world := w.(transient := w.transient[k := next]),
                 touches := s.touches + [SetTransientState(k, val, next)])
  }

  // ----- every opcode that opens no frame -----------------------------------------------

  /** The opcodes that open a child frame. */
  predicate OpensFrame(op: Byte) {
    op == CREATE || op == CREATE2 || IsCall(op)
  }

  predicate IsCall(op: Byte) {
    op == CALL || op == CALLCODE || op == DELEGATECALL || op == STATICCALL
  }

  /** What each opcode that opens no frame does, for some choice of its operands. */
  ghost predicate OpcodeSpec(remote: Remote, s: Snap, t: Snap, op: Byte, code: Bytecode, call: Call, ctx: Context,
                             moved: bool, r: StepResult) {
    if op == STOP then
      r == Ok(0) && moved && t == s.(pc := |code.instructions|, stopped := true, reverted := false, ret := [])
    else if op == JUMP || op == JUMPI then
      exists offset: nat, taken: bool :: JumpSpec(s, t, op, code, offset, taken, moved, r)
    else
      !moved && if Touches(op) then WorldSpec(remote, s, t, op, Self(call, ctx), ctx, r)
                else LocalSpec(s, t, op, code, call.data, ctx, r)
  }

  /** The opcodes that reach the world state. */
  predicate Touches(op: Byte) {
    || op == BALANCE || op == EXTCODESIZE || op == EXTCODEHASH || op == SELFBALANCE || op == EXTCODECOPY
    || op == SLOAD || op == SSTORE || op == TSTORE || op == SELFDESTRUCT
  }

  ghost predicate LocalSpec(s: Snap, t: Snap, op: Byte, code: Bytecode, data: seq<Byte>, ctx: Context, r: StepResult) {
    if ShapeOf(op).Some? then StackSpec(s, t, op, ShapeOf(op).value, r)
    else if op == EXP || op == SHA3 then exists size: nat :: PricedSpec(s, t, op, size, r)
    else if MLOAD <= op <= MSTORE8 then exists offset: nat :: MemorySpec(s, t, op, offset, r)
    else if op == CALLDATACOPY || op == CODECOPY || op == RETURNDATACOPY then
      exists dest: nat, from: nat, size: nat :: CopySpec(s, t, op, CopySource(op, code, data), dest, from, size, r)
    else if op == MCOPY then exists dest: nat, from: nat, size: nat :: McopySpec(s, t, dest, from, size, r)
    else if LOG0 <= op <= LOG4 then exists offset: nat, size: nat :: LogSpec(s, t, op, ctx, offset, size, r)
    else if op == RETURN || op == REVERT then exists offset: nat, size: nat :: ReturnSpec(s, t, op, offset, size, r)
    else r == Err && t == s    // unknown opcode
  }

  ghost predicate WorldSpec(remote: Remote, s: Snap, t: Snap, op: Byte, self: Address, ctx: Context, r: StepResult) {
    if op == SELFBALANCE then SelfBalanceSpec(remote, s, t, self, r)
    else if op == EXTCODECOPY then
      exists a: Address, dest: nat, from: nat, size: nat :: ExtCodeCopySpec(remote, s, t, a, dest, from, size, r)
    else if op == SLOAD then exists k: Slot :: k.addr == self && SloadSpec(remote, s, t, k, r)
    else if op == SSTORE then
      exists k: Slot, next: Word :: k.addr == self && SstoreSpec(remote, s, t, ctx, k, next, r)
    else if op == TSTORE then exists k: Slot, next: Word :: k.addr == self && TstoreSpec(s, t, k, next, r)
    else if op == SELFDESTRUCT then exists heir: Address :: DestructSpec(remote, s, t, self, ctx, heir, r)
    else exists a: Address :: AccountSpec(remote, s, t, op, a, r)
  }

  // ----- calls --------------------------------------------------------------------------

  /** A call whose operands are read and whose base cost is known. */
  datatype Plan = Plan(address: Address, value: Word, asked: nat, argsOffset: nat, argsSize: nat, retOffset: nat,
                       retSize: nat, code: seq<Byte>, base: int, stipend: nat)

  predicate MovesValue(ctx: Context) {
    ctx.callType != Static && ctx.callType != Delegate
  }

  /** The value a callee sees: an operand, nothing for STATICCALL, the caller's own for DELEGATECALL. */
  function CallValue(call: Call, ctx: Context, operand: Word): Word {
    if MovesValue(ctx) then operand else if ctx.callType == Static then 0 else call.value
  }

  predicate IsDelegation(code: seq<Byte>) {
    |code| == 23 && code[..3] == [0xef, 0x01, 0x00]
  }

  /** EIP-7702: three marker bytes and an address. */
  lemma DelegationIs(target: seq<Byte>, code: seq<Byte>)
    ensures |target| == 20 ==> IsDelegation([0xef, 0x01, 0x00] + target)
    ensures |target| == 20 ==> ([0xef, 0x01, 0x00] + target)[3..] == target
    ensures IsDelegation(code) ==> |code[3..]| == 20 && code == [0xef, 0x01, 0x00] + code[3..]
  {
  }

  /** The code a call to `address` runs: its own, or that of the account it delegates to. */
  function CalleeCode(remote: Remote, w: World, address: Address): seq<Byte> {
    var code := AccountOf(remote, w, address).code;
    if IsDelegation(code) then AccountOf(remote, w, BigEndian(code[3..])).code else code
  }

  function CalleePrice(remote: Remote, w: World, address: Address): nat {
    var code := AccountOf(remote, w, address).code;
    AccessPrice(w, address) + if IsDelegation(code) then AccessPrice(Accessed(w, address), BigEndian(code[3..])) else 0
  }

  /** What looking up a callee records: the code seen and the addresses warmed. */
  function CalleeEntries(remote: Remote, w: World, address: Address): seq<Touch> {
    var code := AccountOf(remote, w, address).code;
    LookEntries(remote, w, address)
    + if IsDelegation(code) then LookEntries(remote, Accessed(w, address), BigEndian(code[3..])) else []
  }

  function LookEntries(remote: Remote, w: World, target: Address): seq<Touch> {
    [GetCode(target, AccountOf(remote, w, target).code)] + AccessEntries(w, target)
  }

  /** The world once an account is warm and cached. */
  function Looked(remote: Remote, w: World, a: Address): World {
    Pull(remote, Accessed(w, a), a)
  }

  /** The world once a callee, and the account it delegates to, is looked up. */
  function CalleeWorld(remote: Remote, w: World, address: Address): World {
    var code := AccountOf(remote, w, address).code;
    var x := Looked(remote, w, address);
    if IsDelegation(code) then Looked(remote, x, BigEndian(code[3..])) else x
  }

  /** An empty account that is not a precompile: sending value there creates it. */
  predicate Dead(remote: Remote, w: World, a: Address) {
    !IsPrecompile(a) && AccountOf(remote, w, a) == Account(0, 0, [])
  }

  /** The end of the memory a call reads its arguments from and has its result written to. */
  function PlanEnd(plan: Plan): nat {
    Max(if plan.argsSize > 0 then plan.argsOffset + plan.argsSize else 0,
        if plan.retSize > 0 then plan.retOffset + plan.retSize else 0)
  }

  /** The base cost of a call, without the growth of the memory. */
  function PlanPrice(remote: Remote, w: World, ctx: Context, plan: Plan): nat {
    CalleePrice(remote, w, plan.address)
    + (if plan.value != 0 && Dead(remote, w, plan.address) then 25_000 else 0)
    + (if MovesValue(ctx) && plan.value != 0 then VALUE_COST else 0)
  }

  function CallOperands(ctx: Context): nat {
    if MovesValue(ctx) then 7 else 6
  }

  /** The caller once its operands are taken, its memory is grown and the callee is looked up. */
  function Poised(remote: Remote, s: Snap, ctx: Context, plan: Plan): Snap
    requires s.stack >= CallOperands(ctx)
  {
    Grow(s, PlanEnd(plan)).(stack := s.stack - CallOperands(ctx), world := CalleeWorld(remote, s.world, plan.address),
                            touches := s.touches + CalleeEntries(remote, s.world, plan.address))
  }

  /** The plan is priced as EIP-2929 and the value rules say. */
  predicate Planned(remote: Remote, s: Snap, call: Call, ctx: Context, operand: Word, plan: Plan) {
    && plan.value == CallValue(call, ctx, operand)
    && plan.base == Grow(s, PlanEnd(plan)).memCost - s.memCost + PlanPrice(remote, s.world, ctx, plan)
    && plan.code == CalleeCode(remote, s.world, plan.address)
    && plan.stipend == (if MovesValue(ctx) && plan.value != 0 then STIPEND else 0)
    && CallBase(plan.base, plan.stipend)
  }

  /** An arbitrary result and an arbitrary cost of at least -1, charged before the base cost. */
  predicate PrecompileSpec(s: Snap, t: Snap, plan: Plan, price: int, r: StepResult) {
    && price >= -1
    && if r.Panic? then true
       else if price > s.gas.Remaining() then r == Err && Stuck(s.(ret := t.ret), t)
       else r == Ok(plan.base) && t == s.(stack := s.stack + 1, gas := s.gas.Charge(price), ret := t.ret)
  }

  /** Value moves when there is some, the call type carries it, the sender has it and is not the callee. */
  predicate Pays(remote: Remote, w: World, self: Address, ctx: Context, plan: Plan) {
    plan.value != 0 && MovesValue(ctx) && BalanceOf(remote, w, self) >= plan.value && self != plan.address
  }

  function TransferEntries(remote: Remote, w: World, self: Address, ctx: Context, plan: Plan): seq<Touch> {
    if !Pays(remote, w, self, ctx, plan) then []
    else
      var src, dst := BalanceOf(remote, w, self), BalanceOf(remote, w, plan.address);
      [SetValue(self, src, src - plan.value), SetValue(plan.address, dst, dst + plan.value)]
  }

  function AfterTransfer(remote: Remote, w: World, self: Address, ctx: Context, plan: Plan): World {
    var x := Pull(remote, Pull(remote, w, self), plan.address);
    if !Pays(remote, w, self, ctx, plan) then x else Transferred(remote, x, self, plan.address, plan.value)
  }

  /** The caller once the value is transferred, in its own journal. */
  function Paying(remote: Remote, s: Snap, self: Address, ctx: Context, plan: Plan): Snap {
    s.(world := AfterTransfer(remote, s.world, self, ctx, plan),
       touches := s.touches + TransferEntries(remote, s.world, self, ctx, plan))
  }

  /** The address a frame runs as: its target, or the account being created. */
  function Self(call: Call, ctx: Context): Address {
    if call.to == 0 then ctx.created else call.to
  }

  // ----- runs ---------------------------------------------------------------------------

  /** One iteration of the fetch loop: the frame at its head, the result of the instruction, the frame before the
      result is charged. */
  datatype Tick = Tick(head: Snap, result: StepResult, mid: Snap)

  /** The run of a frame. */
  datatype Trace = Trace(first: Snap, ticks: seq<Tick>, last: Snap)

  /** A child frame that has run: what was called in which context, the program, its books, and its run. */
  datatype Child = Child(call: Call, ctx: Context, program: Bytecode, book: Book, trace: Trace)

  function Bound(s: Snap): nat {
    Max(0, s.gas.limit)
  }

  /** A frame that has not done anything yet. */
  function Newborn(limit: int, w: World): Snap {
    Snap(0, Gas(limit, 0, 0), 0, 0, 0, false, false, [], [], CLEAN, {}, w)
  }

  /** A frame whose caller is warm. */
  function AtEntry(s: Snap, call: Call): Snap {
    if call.from == 0 || call.from in s.world.warmAddresses then s
    else s.(world := Segments.WarmAddress(s.world, call.from), touches := s.touches + [WarmUp(call.from)])
  }

  /** A frame that failed: all its gas is gone. */
  function Burnt(s: Snap): Snap {
    s.(stopped := true, reverted := true, ret := [], gas := s.gas.(used := s.gas.limit))
  }

  /** The end of an iteration: the cost is charged, or the frame fails; SELFDESTRUCT returns nothing. */
  function Charged(op: Byte, tick: Tick): Snap {
    if !tick.result.Ok? || op == INVALID || tick.result.cost > tick.mid.gas.Remaining() then Burnt(tick.mid)
    else
      var paid := tick.mid.(gas := tick.mid.gas.Charge(tick.result.cost));
      if op == SELFDESTRUCT then paid.(ret := []) else paid
  }

  predicate IsRunning(code: Bytecode, s: Snap) {
    !s.stopped && s.pc < |code.instructions|
  }

  function OpAt(code: Bytecode, s: Snap): Byte
    requires IsRunning(code, s)
  {
    code.instructions[s.pc].opcode
  }

  /** A run of the fetch loop from `s` through `ticks` to `t`. */
  ghost predicate Path(remote: Remote, code: Bytecode, call: Call, ctx: Context, s: Snap, ticks: seq<Tick>, t: Snap)
    decreases Bound(s), 8, |ticks|
  {
    if ticks == [] then t == s
    else
      var front, tick := ticks[..|ticks| - 1], ticks[|ticks| - 1];
      && Path(remote, code, call, ctx, s, front, tick.head)
      && (front != [] ==> !Destroys(code, front[|front| - 1]))
      && IsRunning(code, tick.head) && tick.head.gas.limit == s.gas.limit && !tick.result.Panic?
      && Performs(remote, code, call, ctx, Fetched(code, tick.head), tick.result, tick.mid)
      && t == Charged(OpAt(code, tick.head), tick)
  }

  predicate Destroys(code: Bytecode, tick: Tick) {
    IsRunning(code, tick.head) && OpAt(code, tick.head) == SELFDESTRUCT
  }

  /** The instruction counts as run before it is executed. */
  function Fetched(code: Bytecode, s: Snap): Snap
    requires IsRunning(code, s)
  {
    s.(ran := s.ran + {OpAt(code, s)})
  }

  /** The frame comes to its end: it has stopped, run off the end of its code, or destroyed itself. */
  predicate Over(code: Bytecode, ticks: seq<Tick>, t: Snap) {
    !IsRunning(code, t) || (ticks != [] && Destroys(code, ticks[|ticks| - 1]))
  }

  /** A whole frame: beyond the depth limit it fails at once; otherwise the loop runs to its end. */
  ghost predicate Executes(remote: Remote, code: Bytecode, call: Call, ctx: Context, run: Trace)
    decreases Bound(run.first), 9, 0
  {
    var s := AtEntry(run.first, call);
    if ctx.depth > CALL_DEPTH_LIMIT then
      run.ticks == [] && run.last == s.(stopped := true, reverted := true, ret := [])
    else Path(remote, code, call, ctx, s, run.ticks, run.last) && Over(code, run.ticks, run.last)
  }

  /** One instruction, and where it leaves the program counter. */
  ghost predicate Performs(remote: Remote, code: Bytecode, call: Call, ctx: Context, s: Snap, r: StepResult, t: Snap)
    requires IsRunning(code, s)
    decreases Bound(s), 7, 0
  {
    var op := OpAt(code, s);
    if op == INVALID then r == Ok(0) && t == s.(pc := s.pc + 1)
    else
      exists m: Snap, moved: bool ::
        && Dispatches(remote, s, m, op, code, call, ctx, moved, r)
        && t == if r.Ok? && !moved then m.(pc := m.pc + 1) else m
  }

  ghost predicate Dispatches(remote: Remote, s: Snap, t: Snap, op: Byte, code: Bytecode, call: Call, ctx: Context,
                             moved: bool, r: StepResult)
    decreases Bound(s), 6, 0
  {
    if OpensFrame(op) then !moved && FrameSpec(remote, s, t, op, call, ctx, r)
    else OpcodeSpec(remote, s, t, op, code, call, ctx, moved, r)
  }

  /** The opcodes that open frames, for some choice of operands and some child. */
  ghost predicate FrameSpec(remote: Remote, s: Snap, t: Snap, op: Byte, call: Call, ctx: Context, r: StepResult)
    decreases Bound(s), 5, 0
  {
    if IsCall(op) then
      exists operand: Word, plan: Plan, child: Child, outcome: StepResult ::
        FamilySpec(remote, s, t, op, call, ctx, operand, plan, child, outcome, r)
    else if ctx.callType == Static then r == Err && t == s
    else
      exists offset: nat, init: seq<Byte>, n: Creation, child: Child ::
        CreateSpec(remote, s, t, Self(call, ctx), CreateContext(op, ctx), offset, init, n, child, r)
  }

  /** The context of the callee: STATICCALL sets the static flag, and nothing ever clears it. */
  function ChildContext(op: Byte, ctx: Context): Context {
    if op == CALL then ctx.(callType := Plain)
    else if op == CALLCODE then ctx.(callType := Callcode)
    else if op == DELEGATECALL then ctx.(callType := Delegate)
    else ctx.(callType := Static, isStatic := true)
  }

  function CreateContext(op: Byte, ctx: Context): Context {
    if op == CREATE2 then ctx.(callType := Create2) else ctx
  }

  /** The four call instructions: a failing call is a halt that takes all remaining gas. */
  ghost predicate FamilySpec(remote: Remote, s: Snap, t: Snap, op: Byte, call: Call, ctx: Context, operand: Word,
                             plan: Plan, child: Child, outcome: StepResult, r: StepResult)
    decreases Bound(s), 4, 0
  {
    if op == CALL && ctx.callType == Static && (s.stack < 3 || operand != 0) then r == Err && t == s
    else
      && CallSpec(remote, s, t, Self(call, ctx), call, ChildContext(op, ctx), operand, plan, child, outcome)
      && r == if outcome.Err? then Halt(t.gas.Remaining()) else outcome
  }

  /** `call`: it fails exactly when operands are missing, memory would grow too far, or the base cost, or the
      precompile's, is out of reach. */
  ghost predicate CallSpec(remote: Remote, s: Snap, t: Snap, self: Address, call: Call, ctx: Context, operand: Word,
                           plan: Plan, child: Child, r: StepResult)
    decreases Bound(s), 3, 0
  {
    if s.stack < CallOperands(ctx) || TooFar(s, PlanEnd(plan)) then r == Err && Stuck(s, t)
    else
      var g := Poised(remote, s, ctx, plan);
      && Planned(remote, s, call, ctx, operand, plan)
      && if plan.base > s.gas.Remaining() then r == Err && t == g.(stack := g.stack + 1)
         else if IsPrecompile(plan.address) then exists price :: PrecompileSpec(g, t, plan, price, r)
         else r.Panic? || (r == Ok(plan.base) && Called(remote, g, t, self, call, ctx, plan, child))
  }

  /** A callee that ran.  DELEGATECALL and CALLCODE run foreign code as the caller itself, with the caller's own
      sender. */
  ghost predicate Called(remote: Remote, s: Snap, t: Snap, self: Address, call: Call, ctx: Context, plan: Plan,
                         child: Child)
    decreases Bound(s), 2, 0
  {
    && child.call.value == plan.value && |child.call.data| == plan.argsSize
    && (if ctx.callType == Delegate || ctx.callType == Callcode
        then child.call.from == call.from && child.call.to == self
        else child.call.from == self && child.call.to == plan.address)
    && Merged(remote, Paying(remote, s, self, ctx, plan), t, ctx, plan, child)
  }

  /** The callee's run, merged into its caller.  It starts from the world after the transfer with all but a 64th of what
      the base cost left, at most what was asked for, and the stipend; the caller pays what it used less the
      stipend. */
  ghost predicate Merged(remote: Remote, s: Snap, t: Snap, ctx: Context, plan: Plan, child: Child)
    decreases Bound(s), 1, 0
  {
    var end := child.trace.last;
    && child.ctx == ctx.(depth := ctx.depth + 1) && child.program.bytecode == plan.code
    && child.trace.first == Newborn(Forwarded(s.gas.Remaining(), plan.base, plan.asked, plan.stipend), s.world)
    && 0 <= child.trace.first.gas.limit < s.gas.limit && Ran(remote, child)
    && Left(remote, child, end.reverted, t.world) && (!end.reverted ==> t.world == end.world)
    && t == s.(stack := s.stack + 1, ret := end.ret, world := t.world,
               gas := Repaid(s.gas, end.gas.used - plan.stipend, if end.reverted then 0 else end.gas.refund),
               touches := s.touches + LeftBy(end, end.reverted),
               marks := Join(s.marks, LeftMarks(remote, child, end.reverted)), ran := s.ran + end.ran)
  }

  /** The caller's gas after a child: charged for it, and its refunds kept if it succeeded. */
  function Repaid(gas: Gas, cost: int, refund: int): Gas {
    gas.(used := gas.used + cost, refund := gas.refund + refund)
  }

  /** The journal entries a child leaves in its caller. */
  function LeftBy(end: Snap, failed: bool): seq<Touch> {
    if failed then Survivors(end.touches) else end.touches
  }

  /** The marks a child leaves in its caller. */
  function LeftMarks(remote: Remote, child: Child, failed: bool): Marks {
    var end := child.trace.last;
    if failed then Leftover(remote, child.trace.first.world, end.touches, end.marks) else end.marks
  }

  /** A failed child is undone: back to the world it started from, up to its marks. */
  ghost predicate Left(remote: Remote, child: Child, failed: bool, w: World) {
    var end := child.trace.last;
    failed ==> IsUndo(remote, end.world, end.touches, w) && Restored(remote, child.book, w)
  }

  /** A child frame ran its program to the end, within its gas, and its books are in order. */
  ghost predicate Ran(remote: Remote, child: Child)
    decreases Bound(child.trace.first), 10, 0
  {
    var book, end := child.book, child.trace.last;
    && Decoded(child.program) && Executes(remote, child.program, child.call, child.ctx, child.trace)
    && Consistent(remote, end.world, book) && book.start == child.trace.first.world
    && book.log == end.touches && book.marks == end.marks && book.ran == end.ran
    && book.isStatic == child.ctx.isStatic && book.levels + 1 == child.ctx.depth
    && 0 <= end.gas.used <= end.gas.limit == child.trace.first.gas.limit
    && RanOnly(child.program.bytecode, end.ran)
  }

  /** A frame running `code` executed only opcodes that stand in it, unless it could open other frames. */
  ghost predicate RanOnly(code: seq<Byte>, ran: set<Byte>) {
    (exists op :: OpensFrame(op) && Contains(code, op)) || forall op :: op in ran ==> Contains(code, op)
  }

  // ----- creations ----------------------------------------------------------------------

  function CreateOperands(ctx: Context): nat {
    if ctx.callType == Create2 then 4 else 3
  }

  function CreateBase(ctx: Context, size: nat): nat {
    32_000 + (if ctx.callType == Create2 then 8 else 2) * CeilDiv(size, 32)
  }

  function Counted(remote: Remote, w: World, self: Address, created: Address): World {
    Segments.WarmAddress(WithNonce(remote, w, self, NonceOf(remote, w, self) + 1), created)
  }

  function PreparedEntries(remote: Remote, w: World, self: Address, created: Address): seq<Touch> {
    var n := NonceOf(remote, w, self);
    [SetNonce(self, n, n + 1)] + if created in w.warmAddresses then [] else [WarmUp(created)]
  }

  /** The creator once its nonce is counted and the address is warm and entered. */
  function Preparing(remote: Remote, s: Snap, self: Address, created: Address): Snap {
    var w := Counted(remote, s.world, self, created);
    s.(world := Entered(w, created), touches := s.touches + PreparedEntries(remote, s.world, self, created),
       marks := Join(Join(s.marks, CLEAN.(nonces := {self})), EnterMarks(remote, w, created)))
  }

  /** `create`: it fails exactly when operands are missing or memory would grow too far.  Reading an empty range past
      the end of the memory, and too little gas, are panics. */
  ghost predicate CreateSpec(remote: Remote, s: Snap, t: Snap, self: Address, ctx: Context, offset: nat,
                             init: seq<Byte>, n: Creation, child: Child, r: StepResult)
    decreases Bound(s), 4, 0
  {
    if s.stack < CreateOperands(ctx) || (init != [] && TooFar(s, offset + |init|)) then r == Err && Stuck(s, t)
    else
      var g := if init == [] then s else Grow(s, offset + |init|);
      var base := g.memCost - s.memCost + CreateBase(ctx, |init|);
      if offset + |init| > g.memory then r.Panic?
      else Creates(remote, g.(stack := s.stack - CreateOperands(ctx)), t, self, ctx, init, base, n, child, r)
  }

  /** A creation once its operands are taken: with too little gas for its base cost it panics. */
  ghost predicate Creates(remote: Remote, s: Snap, t: Snap, self: Address, ctx: Context, init: seq<Byte>, base: int,
                          n: Creation, child: Child, r: StepResult)
    decreases Bound(s), 3, 0
  {
    && (s.gas.Remaining() <= base ==> r.Panic?)
    && (r.Panic? ||
        (&& r == Ok(0) && n.creator == self && n.pays == MovesValue(ctx)
         && Created(remote, Preparing(remote, s, self, n.created), t, init, base, ctx, n, child)))
  }

  /** A creation whose init code ran, with all but a 64th of what the base cost left. */
  ghost predicate Created(remote: Remote, s: Snap, t: Snap, init: seq<Byte>, base: int, ctx: Context, n: Creation,
                          child: Child)
    decreases Bound(s), 2, 0
  {
    var rest := s.gas.Remaining() - base;
    rest > 0 &&
    var limit := AllButOne64th(rest);
    && child.ctx == ctx.(created := n.created, depth := ctx.depth + 1) && child.call == Call([], n.value, n.creator, 0)
    && child.program.bytecode == init && child.trace.first == Newborn(limit, s.world)
    && 0 <= limit < s.gas.limit && Ran(remote, child)
    && Concluded(remote, s, t, base, limit, n, child)
  }

  /** The end of a creation.  On success the creator pays the base cost, the gas used and the deposit for the code; a
      creation that cannot pay the deposit fails and costs all it was given. */
  ghost predicate Concluded(remote: Remote, s: Snap, t: Snap, base: int, limit: int, n: Creation, child: Child) {
    var end := child.trace.last;
    var spent := end.gas.used + if end.reverted then 0 else 200 * |end.ret|;
    && BothCached(end.world, n) && n.code == end.ret
    && Finished(remote, s.(gas := s.gas.Charge(base + Min(limit, spent))), t, n, child, end.reverted || spent > limit)
  }

  /** What a creation leaves once it is paid for: undone, or with the code installed and its own entries before the
      child's. */
  ghost predicate Finished(remote: Remote, s: Snap, t: Snap, n: Creation, child: Child, failed: bool)
    requires BothCached(child.trace.last.world, n)
  {
    var end := child.trace.last;
    && Left(remote, child, failed, t.world) && (!failed ==> t.world == Installed(end.world, n))
    && t == s.(stack := s.stack + 1, world := t.world, gas := Repaid(s.gas, 0, if failed then 0 else end.gas.refund),
               touches := s.touches
                          + (if failed then Survivors(end.touches) else InstallEntries(end.world, n) + end.touches),
               marks := Join(s.marks, if failed then LeftMarks(remote, child, true)
                                      else Join(end.marks, CommitMarks(remote, child.trace.first.world, end.world, n))),
               ran := s.ran + end.ran)
  }
}
