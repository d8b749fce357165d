/** One instruction at a time: every opcode of `execute_instruction` (src/executor.rs) except the ones
    that open a child frame.  Gas, stack and memory lengths, world and journal are concrete; operand
    values are arbitrary. */
module Steps {
  import opened Types
  import opened Opcodes
  import opened State
  import opened Journal
  import opened Segments
  import opened Limits
  import opened GasRules
  import opened Metering
  import opened Ledger
  import opened Machine
  import opened Decoder
  import opened Semantics

  /** A frame about to execute an instruction. */
  ghost predicate Ready(evm: Evm, ext: Ext)
    reads evm, ext
  {
    evm.Sound(ext) && evm.MemoryPriced() && 0 <= evm.gas.used <= evm.gas.limit
  }

  /** What every instruction promises: the frame stays sound, gas is never overspent, and unless the
      frame has stopped, the step has made progress in gas. */
  twostate predicate Progressed(evm: Evm, ext: Ext, r: StepResult)
    reads evm, ext
  {
    && evm.Carried()
    && (!r.Panic? ==> evm.Sound(ext) && evm.gas.used <= evm.gas.limit)
    && (r.Ok? ==> evm.MemoryPriced() && old(evm.memory) <= evm.memory)
    && (r.Ok? ==> r.cost >= 0 && evm.gas.used + r.cost >= old(evm.gas.used))
    && (r.Ok? && !evm.stopped ==> evm.gas.used + r.cost > old(evm.gas.used))
  }

  /** The same for an instruction that opens no frame and jumps nowhere. */
  twostate predicate Stepped(evm: Evm, ext: Ext, r: StepResult)
    reads evm, ext
  {
    Progressed(evm, ext, r) && evm.Unmarked() && evm.pc == old(evm.pc)
  }

  /** The same for an instruction that may do what its journal cannot take back. */
  twostate predicate Lapsed(evm: Evm, ext: Ext, r: StepResult)
    reads evm, ext
  {
    Progressed(evm, ext, r) && evm.Kept() && evm.pc == old(evm.pc)
  }

  /** Arbitrary bytes read from memory or returned by a precompile. */
  method AnyBytes(n: nat) returns (data: seq<Byte>)
    ensures |data| == n
  {
    assert |seq<Byte>(n, _ => 0)| == n;
    data :| |data| == n;
  }

  // ----- stack instructions -------------------------------------------------------------

  method StackOp(evm: Evm, ext: Ext, op: Byte, shape: Shape) returns (r: StepResult)
    requires Ready(evm, ext) && Some(shape) == ShapeOf(op)
    modifies evm`stopped, evm`reverted, evm`gas, evm`stack
    ensures Stepped(evm, ext, r)
    ensures StackSpec(old(evm.Now(ext)), evm.Now(ext), op, shape, r)
  {
    hide Consistent, MemoryPrice, Resized, RoundUp, Opening;
    if evm.gas.Remaining() < shape.cost {
      return Halt(shape.cost);
    }
    if evm.stack < shape.needs {
      evm.Error();
      return Err;
    }
    var ok := evm.Pop(shape.pops);
    if op == MULMOD {
      var modulus: nat :| modulus >= 0;
      if modulus == 0 { return Panic; }
    }
    if shape.pushes > 0 {
      ok := evm.Push();
      if !ok { return Err; }
    }
    r := Ok(shape.cost);
  }

  /** EXP and SHA3 take their operands before they know their price. */
  method PricedOp(evm: Evm, ext: Ext, op: Byte) returns (r: StepResult, ghost size: nat)
    requires Ready(evm, ext) && (op == EXP || op == SHA3)
    modifies evm`stopped, evm`reverted, evm`gas, evm`stack
    ensures Stepped(evm, ext, r)
    ensures PricedSpec(old(evm.Now(ext)), evm.Now(ext), op, size, r)
  {
    hide Consistent, MemoryPrice, Resized, RoundUp, Opening;
    var length: nat :| length >= 0;    // exponent bytes, or bytes hashed
    size := length;
    var ok := evm.Pop(2);
    if !ok { return Err, size; }
    var cost: nat;
    if op == EXP {
      cost := 10 + 50 * Min(length, 32);
    } else {
      if length > ALLOCATION_SANITY_LIMIT { return Err, size; }
      cost := 30 + 6 * CeilDiv(length, 32);
    }
    if evm.gas.Remaining() < cost { return Halt(cost), size; }
    ok := evm.Push();
    r := Ok(cost);
  }

  // ----- memory instructions ------------------------------------------------------------

  /** Resize, then charge for the growth. */
  method Expand(evm: Evm, end: nat) returns (ok: bool, cost: int)
    requires evm.MemoryPriced()
    modifies evm`memory, evm`memCost
    ensures evm.MemoryPriced() && cost >= 0 && cost == evm.memCost - old(evm.memCost) && old(evm.memory) <= evm.memory
    ensures ok <==> end <= old(evm.memory) || end <= ALLOCATION_SANITY_LIMIT
    ensures evm.memory == if ok then Resized(old(evm.memory), end) else old(evm.memory)
  {
    ghost var paid := evm.memory;
    ok := evm.Resize(end);
    if !ok { return false, 0; }
    cost := evm.ExpansionCost(paid);
  }

  /** MLOAD, MSTORE, MSTORE8. */
  method MemoryOp(evm: Evm, ext: Ext, op: Byte) returns (r: StepResult, ghost at: nat)
    requires Ready(evm, ext) && MLOAD <= op <= MSTORE8
    modifies evm`stopped, evm`reverted, evm`gas, evm`stack, evm`memory, evm`memCost
    ensures Stepped(evm, ext, r)
    ensures MemorySpec(old(evm.Now(ext)), evm.Now(ext), op, at, r)
  {
    hide Consistent, MemoryPrice, Resized, RoundUp, Opening;
    var offset: nat :| offset >= 0;
    at := offset;
    var ok := evm.Pop(if op == MLOAD then 1 else 2);
    if !ok { return Err, at; }
    var growth;
    ok, growth := Expand(evm, offset + if op == MSTORE8 then 1 else 32);
    if !ok { return Err, at; }
    var cost := 3 + growth;
    if evm.gas.Remaining() < cost { return Halt(cost), at; }
    if op == MLOAD {
      ok := evm.Push();
    }
    r := Ok(cost);
  }

  /** Grow the target of a copy, refuse a source beyond the sanity limit, charge for the growth. */
  method Fill(evm: Evm, end: nat, oversized: bool) returns (ok: bool, growth: int)
    requires evm.MemoryPriced()
    modifies evm`memory, evm`memCost
    ensures ok ==> evm.MemoryPriced() && growth == evm.memCost - old(evm.memCost) >= 0 && old(evm.memory) <= evm.memory
    ensures ok ==> evm.memory == Resized(old(evm.memory), end)
    ensures ok <==> !oversized && (end <= old(evm.memory) || end <= ALLOCATION_SANITY_LIMIT)
  {
    hide RoundUp, MemoryPrice;
    ghost var paid := evm.memory;
    growth := 0;
    ok := evm.Resize(end);
    if !ok { return; }
    if oversized { return false, 0; }
    growth := evm.ExpansionCost(paid);
  }

  /** CALLDATACOPY, CODECOPY, RETURNDATACOPY: the target grows first, then an oversized source fails. */
  method CopyOp(evm: Evm, ext: Ext, op: Byte, available: nat)
    returns (r: StepResult, ghost target: nat, ghost from: nat, ghost size: nat)
    requires Ready(evm, ext) && (op == CALLDATACOPY || op == CODECOPY || op == RETURNDATACOPY)
    modifies evm`stopped, evm`reverted, evm`gas, evm`stack, evm`memory, evm`memCost
    ensures Stepped(evm, ext, r)
    ensures CopySpec(old(evm.Now(ext)), evm.Now(ext), op, available, target, from, size, r)
  {
    hide Consistent, MemoryPrice, RoundUp, Opening, CeilDiv, Resized;
    var dest: nat, offset: nat, length: nat :| dest >= 0 && offset >= 0 && length >= 0;
    target, from, size := dest, offset, length;
    ResizedToNothing(evm.memory);
    var ok := evm.Pop(3);
    if !ok { return Err, target, from, size; }
    var growth := 0;
    if op != CALLDATACOPY || length > 0 {
      var oversized := op != RETURNDATACOPY && offset + length > Max(available, ALLOCATION_SANITY_LIMIT);
      ok, growth := Fill(evm, dest + length, oversized);
      if !ok { return Err, target, from, size; }
    }
    r := Ok(3 + 3 * CeilDiv(length, 32) + growth);
  }

  /** MCOPY; the sanity limit looks at the target only. */
  method McopyOp(evm: Evm, ext: Ext) returns (r: StepResult, ghost target: nat, ghost from: nat, ghost size: nat)
    requires Ready(evm, ext)
    modifies evm`stopped, evm`reverted, evm`gas, evm`stack, evm`memory, evm`memCost
    ensures Stepped(evm, ext, r)
    ensures McopySpec(old(evm.Now(ext)), evm.Now(ext), target, from, size, r)
  {
    hide Consistent, MemoryPrice, Opening, CeilDiv;
    var dest: nat, offset: nat, length: nat :| dest >= 0 && offset >= 0 && length >= 0;
    target, from, size := dest, offset, length;
    var ok := evm.Pop(3);
    if !ok { return Err, target, from, size; }
    var cost: int := 3 + 3 * CeilDiv(length, 32);
    if evm.gas.Remaining() < cost { return Halt(cost), target, from, size; }
    if length > 0 {
      ghost var paid := evm.memory;
      var len := Max(dest + length, offset + length);
      if len > evm.memory {
        if dest + length > ALLOCATION_SANITY_LIMIT { return Err, target, from, size; }
        evm.memory := RoundUp(len);
      }
      var growth := evm.ExpansionCost(paid);
      cost := cost + growth;
      if evm.gas.Remaining() < cost { return Halt(cost), target, from, size; }
    }
    r := Ok(cost);
  }

  /** LOG0 to LOG4: the memory they read is neither grown nor priced. */
  method LogOp(evm: Evm, ext: Ext, op: Byte, ctx: Context) returns (r: StepResult, ghost at: nat, ghost size: nat)
    requires Ready(evm, ext) && LOG0 <= op <= LOG4
    modifies evm`stopped, evm`reverted, evm`gas, evm`stack
    ensures Stepped(evm, ext, r)
    ensures LogSpec(old(evm.Now(ext)), evm.Now(ext), op, ctx, at, size, r)
  {
    hide Consistent, MemoryPrice, Resized, RoundUp, Opening;
    var offset: nat, length: nat :| offset >= 0 && length >= 0;
    at, size := offset, length;
    if ctx.callType == Static { return Err, at, size; }
    if evm.stack < 2 {
      evm.Error();
      return Err, at, size;
    }
    var cost := 375 + 375 * Arity(op) + 8 * length;
    if evm.gas.Remaining() < cost { return Halt(cost), at, size; }
    var ok := evm.Pop(2 + Arity(op));
    if !ok { return Err, at, size; }
    if offset + length > evm.memory && offset + length > ALLOCATION_SANITY_LIMIT { return Err, at, size; }
    r := Ok(cost);
  }

  lemma ResizedToNothing(len: nat)
    ensures Resized(len, 0) == len
  {
  }

  /** RETURN and REVERT. */
  method ReturnOp(evm: Evm, ext: Ext, op: Byte) returns (r: StepResult, ghost at: nat, ghost length: nat)
    requires Ready(evm, ext) && (op == RETURN || op == REVERT)
    modifies evm`stopped, evm`reverted, evm`gas, evm`stack, evm`memory, evm`memCost, evm`ret
    ensures Stepped(evm, ext, r)
    ensures ReturnSpec(old(evm.Now(ext)), evm.Now(ext), op, at, length, r)
  {
    hide Consistent, MemoryPrice, DeliverSpec, Opening;
    var offset: nat, size: nat :| offset >= 0 && size >= 0;
    at, length := offset, size;
    evm.stopped := true;
    evm.reverted := op == REVERT;
    var ok := evm.Pop(2);
    if !ok { return Err, at, length; }
    r := Deliver(evm, ext, offset, size);
  }

  /** Hand over what a frame returns. */
  method Deliver(evm: Evm, ext: Ext, offset: nat, size: nat) returns (r: StepResult)
    requires evm.MemoryPriced()
    modifies evm`memory, evm`memCost, evm`ret
    ensures r.Err? || (r.Ok? && r.cost >= 0 && evm.MemoryPriced() && old(evm.memory) <= evm.memory)
    ensures DeliverSpec(old(evm.Now(ext)), evm.Now(ext), offset, size, r)
  {
    hide MemoryPrice, Grow, TooFar;
    var ok, growth, data := Slice(evm, ext, offset, size);
    if !ok { return Err; }
    evm.ret := data;
    r := Ok(growth);
  }

  /** Read `size` bytes of memory, growing it if there are any to read. */
  method Slice(evm: Evm, ext: Ext, offset: nat, size: nat) returns (ok: bool, growth: int, data: seq<Byte>)
    requires evm.MemoryPriced()
    modifies evm`memory, evm`memCost
    ensures ok <==> size == 0 || !TooFar(old(evm.Now(ext)), offset + size)
    ensures ok ==> evm.Now(ext) == if size == 0 then old(evm.Now(ext)) else Grow(old(evm.Now(ext)), offset + size)
    ensures ok ==> |data| == size
    ensures !ok ==> Stuck(old(evm.Now(ext)), evm.Now(ext))
    ensures evm.MemoryPriced() && growth == evm.memCost - old(evm.memCost) >= 0 && old(evm.memory) <= evm.memory
  {
    hide MemoryPrice, Resized, RoundUp;
    ok, growth, data := true, 0, [];
    if size > 0 {
      ok, growth := Expand(evm, offset + size);
      if !ok { return; }
    }
    data := AnyBytes(size);
  }

  /** JUMP, and JUMPI with its condition: the target must resolve, exist and be a JUMPDEST, except
      that JUMPI accepts index 0.  So a taken JUMP succeeds exactly on the valid destinations of the
      Yellow Paper, and a taken JUMPI on those and offset 0. */
  method JumpOp(evm: Evm, ext: Ext, op: Byte, code: Bytecode)
    returns (r: StepResult, jumped: bool, ghost offset: nat, ghost taken: bool)
    requires Ready(evm, ext) && (op == JUMP || op == JUMPI) && Decoded(code) && code.instructions != []
    modifies evm`stopped, evm`reverted, evm`gas, evm`stack, evm`pc
    ensures Progressed(evm, ext, r) && evm.Unmarked() && (!jumped ==> evm.pc == old(evm.pc))
    ensures JumpSpec(old(evm.Now(ext)), evm.Now(ext), op, code, offset, taken, jumped, r)
  {
    hide Consistent, MemoryPrice, Resized, RoundUp, Opening, Decoded, ValidDests;
    var dest: nat, cond: Word :| dest >= 0 && cond >= 0;
    offset, taken, jumped := dest, op == JUMP || cond != 0, false;
    var cost := if op == JUMP then 8 else 10;
    if evm.gas.Remaining() < cost { return Halt(cost), false, offset, taken; }
    var ok := evm.Pop(if op == JUMP then 1 else 2);
    if !ok { return Err, false, offset, taken; }
    if op == JUMP || cond != 0 {
      var target := Target(code, dest, op == JUMPI);
      if target.None? { return Halt(cost), false, offset, taken; }
      evm.pc, jumped := target.value, true;
    }
    r := Ok(cost);
  }

  /** Resolve a jump target and check the instruction there. */
  method Target(code: Bytecode, offset: nat, conditional: bool) returns (index: Option<nat>)
    requires Decoded(code) && code.instructions != []
    ensures index.Some? <==> offset in ValidDests(code.bytecode, 0) || (conditional && offset == 0)
    ensures index.Some? ==> index.value < |code.instructions| && code.instructions[index.value].offset == offset
  {
    hide ValidDests;
    ghost var control := if conditional then JumpIf(offset) else Jump(offset);
    JumpsLandOnValidDests(code, control);
    index := ResolveJump(code, offset);
    if index.None? || index.value >= |code.instructions| { return None; }
    if code.instructions[index.value].opcode != JUMPDEST && (!conditional || index.value != 0) { return None; }
    assert Lands(code, control, index.value);
  }

  // ----- account instructions -----------------------------------------------------------

  /** BALANCE, EXTCODESIZE, EXTCODEHASH. */
  method AccountOp(evm: Evm, ext: Ext, op: Byte) returns (r: StepResult, ghost address: Address)
    requires Ready(evm, ext) && (op == BALANCE || op == EXTCODESIZE || op == EXTCODEHASH)
    modifies evm, ext
    ensures Stepped(evm, ext, r)
    ensures AccountSpec(ext.remote, old(evm.Now(ext)), evm.Now(ext), op, address, r)
  {
    hide Consistent, MemoryPrice, Resized, RoundUp, Opening, Accessed, AccessEntries, AccessPrice, Pull, AccountNote;
    var a: Address :| a >= 0;
    address := a;
    var ok := evm.Pop(1);
    if !ok { return Err, address; }
    var cost;
    ok, cost := Visit(evm, ext, op, a);
    if !ok { return Halt(cost), address; }
    ok := evm.Push();
    r := Ok(cost);
  }

  /** Warm the address, check the gas, read the account. */
  method Visit(evm: Evm, ext: Ext, op: Byte, a: Address) returns (ok: bool, cost: int)
    requires evm.Sound(ext)
    modifies evm`touches, evm`book, ext`accessedAddresses, ext`accounts
    ensures evm.Sound(ext) && evm.Unmarked()
    ensures var w := old(ext.View());
            && cost == AccessPrice(w, a) >= 100 && ok == (cost <= evm.gas.Remaining())
            && ext.View() == (if ok then Pull(ext.remote, Accessed(w, a), a) else Accessed(w, a))
            && evm.touches == old(evm.touches) + AccessEntries(w, a)
                              + if ok then [AccountNote(ext.remote, w, op, a)] else []
  {
    hide Consistent, Opening, Accessed, AccessEntries, AccessPrice, Pull, AccountNote;
    AccessKeepsAccounts(ext.remote, ext.View(), a);
    cost := evm.AccessCost(a, ext);
    ok := evm.gas.Remaining() >= cost;
    if ok {
      var _ := Inspect(evm, ext, op, a);
    }
  }

  /** Read an account and note what was seen. */
  method Inspect(evm: Evm, ext: Ext, op: Byte, a: Address) returns (acc: Account)
    requires evm.Sound(ext)
    modifies evm`touches, evm`book, ext`accounts
    ensures evm.Sound(ext) && evm.Unmarked() && ext.View() == Pull(ext.remote, old(ext.View()), a)
    ensures evm.touches == old(evm.touches) + [AccountNote(ext.remote, old(ext.View()), op, a)]
    ensures acc == AccountOf(ext.remote, old(ext.View()), a)
  {
    hide Consistent, Pull;
    acc := evm.LoadAccount(a, ext);
    evm.Note(if op == BALANCE then GetValue(a, acc.value) else GetCode(a, acc.code), ext);
  }

  lemma AccessKeepsAccounts(r: Remote, w: World, a: Address)
    ensures forall op :: AccountNote(r, Accessed(w, a), op, a) == AccountNote(r, w, op, a)
    ensures AccessPrice(w, a) >= 100
  {
  }

  method SelfBalanceOp(evm: Evm, ext: Ext, self: Address) returns (r: StepResult)
    requires Ready(evm, ext)
    modifies evm, ext
    ensures Stepped(evm, ext, r)
    ensures SelfBalanceSpec(ext.remote, old(evm.Now(ext)), evm.Now(ext), self, r)
  {
    hide Consistent, MemoryPrice, Resized, RoundUp, Opening, Pull;
    if evm.gas.Remaining() < 5 { return Halt(5); }
    var acc := evm.LoadAccount(self, ext);
    evm.Note(GetValue(self, acc.value), ext);
    var ok := evm.Push();
    if !ok { return Err; }
    r := Ok(5);
  }

  /** EXTCODECOPY: no flat price beyond the words copied, the growth and the access. */
  method ExtCodeCopyOp(evm: Evm, ext: Ext)
    returns (r: StepResult, ghost address: Address, ghost target: nat, ghost from: nat, ghost size: nat)
    requires Ready(evm, ext)
    modifies evm, ext
    ensures Stepped(evm, ext, r)
    ensures ExtCodeCopySpec(ext.remote, old(evm.Now(ext)), evm.Now(ext), address, target, from, size, r)
  {
    hide Consistent, MemoryPrice, RoundUp, Opening, Pull, AccessPrice, AccessEntries, Accessed, Resized, AccountNote,
         CeilDiv, CodeSpec;
    var a: Address, dest: nat, offset: nat, length: nat :| a >= 0 && dest >= 0 && offset >= 0 && length >= 0;
    address, target, from, size := a, dest, offset, length;
    var ok := evm.Pop(4);
    if !ok { return Err, address, target, from, size; }
    r := CopyCode(evm, ext, a, dest, offset, length);
  }

  /** Note the account, copy its code, pay for the access. */
  method CopyCode(evm: Evm, ext: Ext, a: Address, dest: nat, offset: nat, length: nat) returns (r: StepResult)
    requires evm.Sound(ext) && evm.MemoryPriced()
    modifies evm`touches, evm`book, evm`memory, evm`memCost, ext`accounts, ext`accessedAddresses
    ensures evm.Sound(ext) && evm.Unmarked()
    ensures r.Err? || (r.Ok? && r.cost >= 100 && evm.MemoryPriced() && old(evm.memory) <= evm.memory)
    ensures CodeSpec(ext.remote, old(evm.Now(ext)), evm.Now(ext), a, dest, offset, length, r)
  {
    hide Consistent, MemoryPrice, RoundUp, Opening, Pull, AccessPrice, AccessEntries, Accessed, Resized, AccountNote,
         CeilDiv;
    var acc := Inspect(evm, ext, EXTCODECOPY, a);
    var ok, growth := Fill(evm, dest + length, offset + length > Max(|acc.code|, ALLOCATION_SANITY_LIMIT));
    if !ok { return Err; }
    AccessKeepsAccounts(ext.remote, ext.View(), a);
    var access := evm.AccessCost(a, ext);
    r := Ok(3 * CeilDiv(length, 32) + growth + access);
  }

  /** SELFDESTRUCT: balances move at once and nothing is journaled. */
  method SelfDestructOp(evm: Evm, ext: Ext, self: Address, ctx: Context) returns (r: StepResult, ghost heir: Address)
    requires Ready(evm, ext) && SELFDESTRUCT in evm.book.ran
    modifies evm, ext
    ensures Lapsed(evm, ext, r)
    ensures DestructSpec(ext.remote, old(evm.Now(ext)), evm.Now(ext), self, ctx, heir, r)
  {
    hide Consistent, MemoryPrice, Resized, RoundUp, Opening, Drained, DrainMarks, Join, Pull;
    var a: Address :| a >= 0;
    heir := a;
    if ctx.callType == Static { return Err, heir; }
    var ok := evm.Pop(1);
    if !ok { return Err, heir; }
    var cost := Bequeath(evm, ext, self, a);
    r := Ok(cost);
  }

  /** Price the destruction and hand over the balance. */
  method Bequeath(evm: Evm, ext: Ext, self: Address, heir: Address) returns (cost: int)
    requires evm.Sound(ext) && SELFDESTRUCT in evm.book.ran
    modifies evm`touches, evm`book, ext`accounts
    ensures evm.Sound(ext) && evm.Kept() && evm.touches == old(evm.touches)
    ensures cost == DestructPrice(ext.remote, old(ext.View()), heir)
    ensures var w := Pull(ext.remote, Pull(ext.remote, old(ext.View()), heir), self);
            && ext.View() == Drained(ext.remote, w, self, heir)
            && evm.book.marks == Join(old(evm.book).marks, DrainMarks(ext.remote, w, self, heir))
  {
    hide Consistent, Opening, Drained, DrainMarks, Join;
    var acc := evm.LoadAccount(heir, ext);
    cost := 5000 + (if heir in ext.accessedAddresses then 0 else 2600)
            + if acc == Account(0, 0, []) then 25_000 else 0;
    var _ := evm.LoadAccount(self, ext);
    evm.Drain(self, heir, ext);
  }

  // ----- storage instructions -----------------------------------------------------------

  /** SLOAD: the slot is warm before the gas check, so a halting read leaves it warm unrecorded. */
  method SloadOp(evm: Evm, ext: Ext, self: Address) returns (r: StepResult, ghost k: Slot)
    requires Ready(evm, ext) && SLOAD in evm.book.ran
    modifies evm, ext
    ensures Lapsed(evm, ext, r) && k.addr == self
    ensures SloadSpec(ext.remote, old(evm.Now(ext)), evm.Now(ext), k, r)
  {
    hide Consistent, MemoryPrice, Resized, RoundUp, Opening, Loaded, Pull, Read, Join, LeakMarks;
    var key: Word :| key >= 0;
    var slot := Slot(self, key);
    k := slot;
    if evm.stack < 1 {
      evm.Error();
      return Err, k;
    }
    var cost, ok := LoadSlot(evm, ext, slot);
    if !ok { return Halt(cost), k; }
    ok := evm.Pop(1);
    ok := evm.Push();
    r := Ok(cost);
  }

  /** Warm the slot, check the gas, fetch the value. */
  method LoadSlot(evm: Evm, ext: Ext, slot: Slot) returns (cost: int, ok: bool)
    requires evm.Sound(ext) && SLOAD in evm.book.ran
    modifies evm`touches, evm`book, ext
    ensures evm.Sound(ext) && evm.Kept()
    ensures var w := old(ext.View());
            && cost == (if slot in w.warmSlots then 100 else 2100) && ok == (cost <= evm.gas.Remaining())
            && ext.View() == (if ok then Pull(ext.remote, Loaded(ext.remote, w, slot), slot.addr)
                              else WarmSlot(w, slot))
            && evm.book.marks == (if ok then old(evm.book).marks else Join(old(evm.book).marks, LeakMarks(w, slot)))
            && evm.touches == old(evm.touches)
                 + if ok then [GetState(slot, Read(ext.remote.storage, w.cache, slot), slot in w.warmSlots)] else []
  {
    hide Consistent, Opening, Tracks, Join, Loaded, Pull, Fetch, Read;
    ghost var w := ext.View();
    var isWarm := slot in ext.accessedStorage;
    if !isWarm {
      ext.WarmStorage(slot);
    }
    assert ext.View() == WarmSlot(w, slot);
    cost := if isWarm then 100 else 2100;
    ok := evm.gas.Remaining() >= cost;
    if ok {
      evm.TakeSlot(slot, isWarm, ext, w);
    } else {
      LeakSegment(ext.remote, w, slot, ext.View());
      evm.Record([], ext, w, LeakMarks(w, slot));
    }
  }

  /** SSTORE: refused in a static frame; cost and refund from the original, current and new value. */
  method SstoreOp(evm: Evm, ext: Ext, self: Address, ctx: Context)
    returns (r: StepResult, ghost k: Slot, ghost next: Word)
    requires Ready(evm, ext) && ctx.isStatic == evm.book.isStatic && SSTORE in evm.book.ran
    modifies evm, ext
    ensures Lapsed(evm, ext, r) && k.addr == self
    ensures SstoreSpec(ext.remote, old(evm.Now(ext)), evm.Now(ext), ctx, k, next, r)
  {
    hide Consistent, MemoryPrice, Resized, RoundUp, Opening, Loaded, Stored, Pull, Cost, Refund, Read, OriginalOf,
         Join, LeakMarks;
    var key: Word, value: Word :| key >= 0 && value >= 0;
    var slot := Slot(self, key);
    k, next := slot, value;
    if ctx.isStatic { return Err, k, next; }
    var ok := evm.Pop(2);
    if !ok { return Err, k, next; }
    r := StoreSlot(evm, ext, slot, value);
  }

  /** The part of SSTORE after its operands are taken. */
  method StoreSlot(evm: Evm, ext: Ext, slot: Slot, value: Word) returns (r: StepResult)
    requires evm.Sound(ext) && !evm.book.isStatic && SSTORE in evm.book.ran
    modifies evm`touches, evm`book, evm`gas, ext
    ensures evm.Sound(ext) && evm.Kept() && (r.Halt? || (r.Ok? && r.cost >= 100))
    ensures StoreSpec(ext.remote, old(evm.Now(ext)), evm.Now(ext), slot, value, r)
  {
    hide Consistent, Opening, Tracks, Join, Loaded, Stored, Pull, Fetch, Cost, Refund, ResetRefund, Read, OriginalOf;
    ghost var w := ext.View();
    var isWarm := slot in ext.accessedStorage;
    if !isWarm {
      ext.WarmStorage(slot);
    }
    assert ext.View() == WarmSlot(w, slot);
    PullAfterFetch(ext.remote, w, slot);
    var val := ext.Get(slot);
    FetchedOriginal(ext.remote, w, slot);
    var original := ext.original[slot];
    var cost, back := Cost(original, val, value, isWarm), Refund(original, val, value);
    CostIsPositive(original, val, value, isWarm);
    if evm.gas.Remaining() + back < 0 || evm.gas.Remaining() < cost {
      evm.LeakSlot(slot, ext, w);
      return Halt(0);
    }
    evm.PutSlot(SetState(slot, val, value, isWarm), original, ext, w);
    r := Ok(cost);
  }

  lemma FetchedOriginal(remote: Remote, w: World, k: Slot)
    ensures k in Fetch(true, remote.storage, w.cache, k).original
    ensures Fetch(true, remote.storage, w.cache, k).original[k] == OriginalOf(remote, w, k)
  {
  }

  lemma CostIsPositive(original: Word, val: Word, next: Word, isWarm: bool)
    ensures Cost(original, val, next, isWarm) >= 100
  {
  }

  /** TSTORE, which no static frame refuses. */
  method TstoreOp(evm: Evm, ext: Ext, self: Address) returns (r: StepResult, ghost k: Slot, ghost val: Word)
    requires Ready(evm, ext)
    modifies evm, ext
    ensures Stepped(evm, ext, r) && k.addr == self
    ensures TstoreSpec(old(evm.Now(ext)), evm.Now(ext), k, val, r)
  {
    hide Consistent, MemoryPrice, Resized, RoundUp, Opening, Tracks;
    var key: Word, value: Word :| key >= 0 && value >= 0;
    var slot := Slot(self, key);
    k, val := slot, value;
    if evm.gas.Remaining() < 100 { return Halt(100), k, val; }
    var ok := evm.Pop(2);
    if !ok { return Err, k, val; }
    ghost var w := ext.View();
    var before := if slot in ext.transient then ext.transient[slot] else 0;
    ext.transient := ext.transient[slot := value];
    TstoreSegment(ext.remote, w, k, val);
    evm.Append([SetTransientState(slot, before, value)], ext, w);
    r := Ok(100);
  }

}
