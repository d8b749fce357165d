/** The decoder (src/decoder.rs) as a small compiler: bytes become an instruction
    vector and a jump table, and running by instruction index means the same as running by byte
    offset. */
module Decoder {
  import opened Types
  import opened Opcodes

  datatype Instruction = Instruction(opcode: Byte, offset: nat, argument: Option<seq<Byte>>)

  datatype Bytecode = Bytecode(bytecode: seq<Byte>, instructions: seq<Instruction>, jumptable: seq<(nat, nat)>)

  // ----- reference: reading code by byte offset -----------------------------------------

  /** Code is followed by zeros. */
  function ByteAt(code: seq<Byte>, i: nat): Byte {
    if i < |code| then code[i] else 0
  }

  function DataAt(code: seq<Byte>, pos: nat, n: nat): (data: seq<Byte>)
    ensures |data| == n && forall i :: 0 <= i < n ==> data[i] == ByteAt(code, pos + i)
  {
    seq<Byte>(n, i requires 0 <= i => ByteAt(code, pos + i))
  }

  function InstructionAt(code: seq<Byte>, pos: nat): Instruction {
    var b := ByteAt(code, pos);
    Instruction(DefinedCode(b), pos,
                if PushLen(b) == 0 then None else Some(DataAt(code, pos + 1, PushLen(b))))
  }

  /** The offset after the instruction at `pos`: N(i, w) in section 9.4.3 of the Yellow Paper. */
  function Next(code: seq<Byte>, pos: nat): nat {
    pos + 1 + PushLen(ByteAt(code, pos))
  }

  /** Valid jump destinations at or after `pos`: D_J(c, i) in section 9.4.3 of the Yellow Paper. */
  function ValidDests(code: seq<Byte>, pos: nat): set<nat>
    decreases |code| - pos
  {
    if pos >= |code| then {}
    else (if code[pos] == JUMPDEST then {pos} else {}) + ValidDests(code, Next(code, pos))
  }

  /** Offsets at which an instruction starts, at or after `pos`. */
  function Boundaries(code: seq<Byte>, pos: nat): set<nat>
    decreases |code| - pos
  {
    if pos >= |code| then {} else {pos} + Boundaries(code, Next(code, pos))
  }

  // ----- the decoder --------------------------------------------------------------------

  /** Each instruction sits where the previous one ends; the first at 0, and the last reaches the end. */
  ghost predicate Chain(code: seq<Byte>, instrs: seq<Instruction>, end: nat) {
    && (forall i :: 0 <= i < |instrs| ==>
          instrs[i].offset < |code| && instrs[i] == InstructionAt(code, instrs[i].offset))
    && (forall i :: 0 < i < |instrs| ==> instrs[i].offset == Next(code, instrs[i - 1].offset))
    && (instrs == [] ==> end == 0)
    && (instrs != [] ==> instrs[0].offset == 0 && end == Next(code, instrs[|instrs| - 1].offset))
  }

  function TableOf(instrs: seq<Instruction>): seq<(nat, nat)> {
    if instrs == [] then []
    else
      var front, last := instrs[..|instrs| - 1], instrs[|instrs| - 1];
      TableOf(front) + if last.opcode == JUMPDEST then [(last.offset, |front|)] else []
  }

  ghost predicate Decoded(b: Bytecode) {
    && (exists end: nat :: end >= |b.bytecode| && Chain(b.bytecode, b.instructions, end))
    && b.jumptable == TableOf(b.instructions)
  }

  lemma ChainOfNothing(code: seq<Byte>)
    ensures Chain(code, [], 0) && TableOf([]) == []
  {
  }

  lemma ChainGrows(code: seq<Byte>, instrs: seq<Instruction>, pos: nat)
    requires pos < |code| && Chain(code, instrs, pos)
    ensures Chain(code, instrs + [InstructionAt(code, pos)], Next(code, pos))
  {
  }

  lemma TableGrows(instrs: seq<Instruction>, instr: Instruction)
    ensures TableOf(instrs + [instr])
         == TableOf(instrs) + if instr.opcode == JUMPDEST then [(instr.offset, |instrs|)] else []
  {
    assert (instrs + [instr])[..|instrs|] == instrs;
  }

  /** Truncated push data, filled up with zeros, reads as if zeros followed the code. */
  lemma PaddedIsData(code: seq<Byte>, from: nat, len: nat)
    requires from <= |code|
    ensures var till := Min(from + len, |code|);
            code[from..till] + seq(len - (till - from), _ => 0) == DataAt(code, from, len)
  {
  }

  method Decode(bytecode: seq<Byte>) returns (b: Bytecode)
    ensures b.bytecode == bytecode && Decoded(b) && Tiles(b)
  {
    hide Chain, TableOf, DataAt;
    ChainOfNothing(bytecode);
    var instructions: seq<Instruction> := [];
    var jumptable: seq<(nat, nat)> := [];
    var pos: nat := 0;
    ghost var end: nat := 0;
    while pos < |bytecode|
      invariant pos == Min(end, |bytecode|)
      invariant Chain(bytecode, instructions, end)
      invariant jumptable == TableOf(instructions)
      decreases |bytecode| - pos
    {
      ghost var start := pos;
      var opcode := bytecode[pos];
      var instruction := Instruction(DefinedCode(opcode), pos, None);
      if DefinedCode(opcode) == JUMPDEST {
        jumptable := jumptable + [(pos, |instructions|)];
      }
      pos := pos + 1;
      var len := PushLen(opcode);
      if len > 0 {
        var from, till := pos, Min(pos + len, |bytecode|);
        PaddedIsData(bytecode, from, len);
        var arg := bytecode[from..till] + seq(len - (till - from), _ => 0);
        instruction := instruction.(argument := Some(arg));
        pos := till;
      }
      ChainGrows(bytecode, instructions, start);
      TableGrows(instructions, instruction);
      instructions := instructions + [instruction];
      end := Next(bytecode, start);
    }
    b := Bytecode(bytecode, instructions, jumptable);
    assert Chain(bytecode, instructions, end);
    DecodedTiles(b);
  }

  // ----- layout and the jump table ------------------------------------------------------

  lemma {:induction false} OffsetsIncrease(code: seq<Byte>, instrs: seq<Instruction>, end: nat, i: nat, j: nat)
    requires Chain(code, instrs, end) && i < j < |instrs|
    ensures instrs[i].offset < instrs[j].offset
    decreases j
  {
    if i < j - 1 {
      OffsetsIncrease(code, instrs, end, i, j - 1);
    }
  }

  /** The table lists exactly the JUMPDEST instructions, each with its own index. */
  lemma {:induction false} TableMembers(instrs: seq<Instruction>)
    ensures forall e :: e in TableOf(instrs) <==>
              e.1 < |instrs| && instrs[e.1].opcode == JUMPDEST && e.0 == instrs[e.1].offset
  {
    if instrs != [] {
      TableMembers(instrs[..|instrs| - 1]);
    }
  }

  /** Strictly sorted in both columns. */
  ghost predicate Sorted(table: seq<(nat, nat)>) {
    forall i, j :: 0 <= i < j < |table| ==> table[i].0 < table[j].0 && table[i].1 < table[j].1
  }

  lemma {:induction false} TableSorted(instrs: seq<Instruction>)
    requires forall i, j :: 0 <= i < j < |instrs| ==> instrs[i].offset < instrs[j].offset
    ensures Sorted(TableOf(instrs))
  {
    if instrs != [] {
      var front := instrs[..|instrs| - 1];
      TableSorted(front);
      TableMembers(front);
      assert forall i :: 0 <= i < |TableOf(front)| ==> TableOf(front)[i] in TableOf(front);
    }
  }

  lemma DecodedTableSorted(b: Bytecode)
    requires Decoded(b)
    ensures Sorted(b.jumptable)
    ensures forall i, j :: 0 <= i < j < |b.instructions| ==> b.instructions[i].offset < b.instructions[j].offset
  {
    var end: nat :| end >= |b.bytecode| && Chain(b.bytecode, b.instructions, end);
    forall i, j | 0 <= i < j < |b.instructions|
      ensures b.instructions[i].offset < b.instructions[j].offset
    {
      OffsetsIncrease(b.bytecode, b.instructions, end, i, j);
    }
    TableSorted(b.instructions);
  }

  /** Linear definition of jump resolution: the instruction that is a JUMPDEST at this offset. */
  ghost predicate ResolvesTo(b: Bytecode, offset: nat, index: nat) {
    index < |b.instructions| && b.instructions[index].offset == offset && b.instructions[index].opcode == JUMPDEST
  }

  /** Binary search over the table refines the linear definition; offset 0 always resolves. */
  method ResolveJump(b: Bytecode, offset: nat) returns (r: Option<nat>)
    requires Decoded(b)
    ensures offset == 0 ==> r == Some(0)
    ensures offset != 0 && r.Some? ==> ResolvesTo(b, offset, r.value)
    ensures offset != 0 && r.None? ==> forall i :: !ResolvesTo(b, offset, i)
  {
    if offset == 0 {
      return Some(0);
    }
    DecodedTableSorted(b);
    TableMembers(b.instructions);
    var lo, hi := 0, |b.jumptable|;
    while lo < hi
      invariant 0 <= lo <= hi <= |b.jumptable|
      invariant forall i :: 0 <= i < lo ==> b.jumptable[i].0 < offset
      invariant forall i :: hi <= i < |b.jumptable| ==> offset < b.jumptable[i].0
    {
      var mid := (lo + hi) / 2;
      if b.jumptable[mid].0 < offset {
        lo := mid + 1;
      } else if offset < b.jumptable[mid].0 {
        hi := mid;
      } else {
        assert b.jumptable[mid] in b.jumptable;
        return Some(b.jumptable[mid].1);
      }
    }
    forall i: nat ensures !ResolvesTo(b, offset, i) {
      assert (offset, i) !in b.jumptable;
    }
    return None;
  }

  lemma {:induction false} DestsFrom(code: seq<Byte>, instrs: seq<Instruction>, end: nat, i: nat, o: nat)
    requires Chain(code, instrs, end) && end >= |code| && i <= |instrs|
    ensures var pos := if i < |instrs| then instrs[i].offset else |code|;
            o in ValidDests(code, pos) <==>
              exists j :: i <= j < |instrs| && instrs[j].offset == o && instrs[j].opcode == JUMPDEST
    decreases |instrs| - i
  {
    if i < |instrs| {
      DestsFrom(code, instrs, end, i + 1, o);
      StepAlong(code, instrs, end, i);
    }
  }

  lemma {:induction false} BoundariesFrom(code: seq<Byte>, instrs: seq<Instruction>, end: nat, i: nat, o: nat)
    requires Chain(code, instrs, end) && end >= |code| && i <= |instrs|
    ensures var pos := if i < |instrs| then instrs[i].offset else |code|;
            o in Boundaries(code, pos) <==> exists j :: i <= j < |instrs| && instrs[j].offset == o
    decreases |instrs| - i
  {
    if i < |instrs| {
      BoundariesFrom(code, instrs, end, i + 1, o);
      StepAlong(code, instrs, end, i);
    }
  }

  lemma StepAlong(code: seq<Byte>, instrs: seq<Instruction>, end: nat, i: nat)
    requires Chain(code, instrs, end) && end >= |code| && i < |instrs|
    ensures var next := if i + 1 < |instrs| then instrs[i + 1].offset else |code|;
            var after := Next(code, instrs[i].offset);
            ValidDests(code, after) == ValidDests(code, next) && Boundaries(code, after) == Boundaries(code, next)
  {
  }

  /** An offset is a JUMPDEST instruction exactly when the Yellow Paper calls it a valid destination,
      and instructions start exactly at the instruction boundaries of the bytes. */
  lemma JumpdestsAreValidDests(b: Bytecode, offset: nat)
    requires Decoded(b)
    ensures (exists i :: ResolvesTo(b, offset, i)) <==> offset in ValidDests(b.bytecode, 0)
    ensures (exists i :: 0 <= i < |b.instructions| && b.instructions[i].offset == offset)
            <==> offset in Boundaries(b.bytecode, 0)
  {
    var end: nat :| end >= |b.bytecode| && Chain(b.bytecode, b.instructions, end);
    DestsFrom(b.bytecode, b.instructions, end, 0, offset);
    BoundariesFrom(b.bytecode, b.instructions, end, 0, offset);
    if b.instructions == [] {
      assert |b.bytecode| == 0;
    }
    if offset in ValidDests(b.bytecode, 0) {
      var j :| 0 <= j < |b.instructions| && b.instructions[j].offset == offset && b.instructions[j].opcode == JUMPDEST;
      assert ResolvesTo(b, offset, j);
    }
  }

  /** The bytes of an instruction and of the one after it, as the Yellow Paper numbers them: 0x60 to 0x7f push one to 32
      bytes, every other byte stands alone. */
  ghost predicate Tiles(b: Bytecode) {
    && (b.instructions == [] <==> b.bytecode == []) && (b.instructions != [] ==> b.instructions[0].offset == 0)
    && forall i :: 0 <= i < |b.instructions| ==> b.instructions[i].offset < |b.bytecode| && TileAt(b, i)
  }

  ghost predicate TileAt(b: Bytecode, i: nat)
    requires i < |b.instructions| && b.instructions[i].offset < |b.bytecode|
  {
    var o, arg := b.instructions[i].offset, b.instructions[i].argument;
    var x := b.bytecode[o];
    var size: nat := if 0x60 <= x <= 0x7f then x - 0x5f else 0;
    // the instruction after it, or the end
    && (if i + 1 < |b.instructions| then b.instructions[i + 1].offset == o + 1 + size else |b.bytecode| <= o + 1 + size)
    // its argument: the bytes that follow, and zeros after the end
    && (size == 0 ==> arg == None)
    && (size > 0 ==> arg.Some? && |arg.value| == size)
    && (size > 0 ==> forall j :: 0 <= j < size ==>
          arg.value[j] == if o + 1 + j < |b.bytecode| then b.bytecode[o + 1 + j] else 0)
    // its argument is no place to jump to
    && (forall p :: o < p <= o + size ==> p !in ValidDests(b.bytecode, 0) && p !in Boundaries(b.bytecode, 0))
    // its opcode
    && b.instructions[i].opcode == if InTable(x) then x else 0xfe
  }

  /** The bytes src/opcodes.rs names. */
  predicate InTable(x: Byte) {
    || x <= 0x0b || 0x10 <= x <= 0x1e || x == 0x20 || 0x30 <= x <= 0x4a
    || 0x50 <= x <= 0x5f || 0x60 <= x <= 0x7f || 0x80 <= x <= 0x8f || 0x90 <= x <= 0x9f || 0xa0 <= x <= 0xa4
    || 0xf0 <= x <= 0xf5 || x == 0xfa || 0xfd <= x <= 0xff
  }

  lemma DecodedTiles(b: Bytecode)
    requires Decoded(b)
    ensures Tiles(b)
  {
    hide ValidDests, Boundaries, TableOf, TileAt;
    var end: nat :| end >= |b.bytecode| && Chain(b.bytecode, b.instructions, end);
    forall i | 0 <= i < |b.instructions| ensures b.instructions[i].offset < |b.bytecode| && TileAt(b, i) {
      DecodedTile(b, i);
    }
  }

  lemma DecodedTile(b: Bytecode, i: nat)
    requires Decoded(b) && i < |b.instructions|
    ensures b.instructions[i].offset < |b.bytecode| && TileAt(b, i)
  {
    hide ValidDests, Boundaries, TableOf;
    var end: nat :| end >= |b.bytecode| && Chain(b.bytecode, b.instructions, end);
    var o := b.instructions[i].offset;
    var x := b.bytecode[o];
    SizeOfByte(x);
    hide PushLen, DefinedCode;
    assert b.instructions[i] == InstructionAt(b.bytecode, o);
    forall p | o < p < Next(b.bytecode, o) ensures p !in ValidDests(b.bytecode, 0) && p !in Boundaries(b.bytecode, 0) {
      NoInstructionWithin(b, i, p);
    }
  }

  lemma SizeOfByte(x: Byte)
    ensures PushLen(x) == if 0x60 <= x <= 0x7f then x - 0x5f else 0
    ensures DefinedCode(x) == if InTable(x) then x else 0xfe
  {
  }

  lemma NoInstructionWithin(b: Bytecode, i: nat, p: nat)
    requires Decoded(b) && i < |b.instructions|
    requires b.instructions[i].offset < p < Next(b.bytecode, b.instructions[i].offset)
    ensures p !in ValidDests(b.bytecode, 0) && p !in Boundaries(b.bytecode, 0)
  {
    hide ValidDests, Boundaries, TableOf;
    DecodedTableSorted(b);
    JumpdestsAreValidDests(b, p);
    var end: nat :| end >= |b.bytecode| && Chain(b.bytecode, b.instructions, end);
    forall j | 0 <= j < |b.instructions| ensures b.instructions[j].offset != p {
      if j > i + 1 {
        assert b.instructions[i + 1].offset < b.instructions[j].offset;
      }
    }
  }

  // ----- the two machines ---------------------------------------------------------------

  /** What an instruction asks of the program counter; `JumpIf` is a JUMPI whose condition holds. */
  datatype Control = Advance | Stop | Jump(dest: nat) | JumpIf(dest: nat)

  /** Any meaning of instructions over any machine data. */
  type Semantics<!D> = (Instruction, D) -> (D, Control)

  datatype Machine<D> = Running(pc: nat, data: D) | Done(data: D) | Failed(data: D)

  /** The target an executed JUMP or JUMPI takes: resolve, then re-check the opcode; JUMPI lets
      index 0 pass. */
  ghost predicate Lands(b: Bytecode, control: Control, index: nat)
    requires control.Jump? || control.JumpIf?
  {
    && index < |b.instructions|
    && (if control.dest == 0 then index == 0 else ResolvesTo(b, control.dest, index))
    && (b.instructions[index].opcode == JUMPDEST || (control.JumpIf? && index == 0))
  }

  /** One iteration of the interpreter loop: the program counter is an instruction index. */
  ghost function IndexStep<D>(sem: Semantics<D>, b: Bytecode, m: Machine<D>): Machine<D> {
    if !m.Running? then m
    else if m.pc >= |b.instructions| then Done(m.data)
    else
      var (data, control) := sem(b.instructions[m.pc], m.data);
      match control
      case Advance => Running(m.pc + 1, data)
      case Stop => Done(data)
      case _ =>
        if exists i :: Lands(b, control, i) then (var i :| Lands(b, control, i); Running(i, data)) else Failed(data)
  }

  /** Where the reference machine goes from byte offset `pos`, if the control transfer is allowed. */
  function Successor(code: seq<Byte>, pos: nat, control: Control): Option<nat>
    requires !control.Stop?
  {
    match control
    case Advance => Some(Next(code, pos))
    case Jump(dest) => if dest in ValidDests(code, 0) then Some(dest) else None
    case JumpIf(dest) => if dest in ValidDests(code, 0) || dest == 0 then Some(dest) else None
  }

  /** One step of the reference machine: the program counter is a byte offset. */
  function OffsetStep<D>(sem: Semantics<D>, code: seq<Byte>, m: Machine<D>): Machine<D> {
    if !m.Running? then m
    else if m.pc >= |code| then Done(m.data)
    else
      var (data, control) := sem(InstructionAt(code, m.pc), m.data);
      match control
      case Stop => Done(data)
      case _ =>
        var next := Successor(code, m.pc, control);
        if next.Some? then Running(next.value, data) else Failed(data)
  }

  ghost function IndexRun<D>(sem: Semantics<D>, b: Bytecode, m: Machine<D>, steps: nat): Machine<D> {
    if steps == 0 then m else IndexStep(sem, b, IndexRun(sem, b, m, steps - 1))
  }

  function OffsetRun<D>(sem: Semantics<D>, code: seq<Byte>, m: Machine<D>, steps: nat): Machine<D> {
    if steps == 0 then m else OffsetStep(sem, code, OffsetRun(sem, code, m, steps - 1))
  }

  /** Same outcome and data; while running, the index names the instruction at the byte offset. */
  ghost predicate InStep<D(!new)>(b: Bytecode, x: Machine<D>, y: Machine<D>) {
    && x.data == y.data
    && (x.Done? <==> y.Done?) && (x.Failed? <==> y.Failed?)
    && (x.Running? ==>
          if x.pc < |b.instructions| then b.instructions[x.pc].offset == y.pc
          else x.pc == |b.instructions| && y.pc >= |b.bytecode|)
  }

  /** JUMP succeeds exactly on the valid destinations, JUMPI on those and offset 0. */
  lemma JumpsLandOnValidDests(b: Bytecode, control: Control)
    requires Decoded(b) && b.instructions != [] && (control.Jump? || control.JumpIf?)
    ensures (exists i :: Lands(b, control, i))
            <==> control.dest in ValidDests(b.bytecode, 0) || (control.JumpIf? && control.dest == 0)
    ensures forall i: nat :: Lands(b, control, i) ==> b.instructions[i].offset == control.dest
  {
    JumpdestsAreValidDests(b, control.dest);
    assert b.instructions[0].offset == 0;
    if control.dest == 0 {
      DecodedTableSorted(b);
      if control.dest in ValidDests(b.bytecode, 0) {
        var i :| ResolvesTo(b, 0, i);
        assert i == 0;
      }
      if b.instructions[0].opcode == JUMPDEST {
        assert ResolvesTo(b, 0, 0);
      }
      if control.JumpIf? || b.instructions[0].opcode == JUMPDEST {
        assert Lands(b, control, 0);
      }
    } else {
      if control.dest in ValidDests(b.bytecode, 0) {
        var i :| ResolvesTo(b, control.dest, i);
        assert Lands(b, control, i);
      }
    }
  }

  lemma StepStaysInStep<D(!new)>(sem: Semantics<D>, b: Bytecode, x: Machine<D>, y: Machine<D>)
    requires Decoded(b) && InStep(b, x, y)
    ensures InStep(b, IndexStep(sem, b, x), OffsetStep(sem, b.bytecode, y))
  {
    if x.Running? && x.pc < |b.instructions| {
      var end: nat :| end >= |b.bytecode| && Chain(b.bytecode, b.instructions, end);
      var (data, control) := sem(b.instructions[x.pc], x.data);
      if control.Jump? || control.JumpIf? {
        JumpsLandOnValidDests(b, control);
      }
    }
  }

  /** For every bytecode, every meaning of its instructions and every number of steps, the decoded
      program and the bytes run in lockstep. */
  lemma {:induction false} Lockstep<D(!new)>(sem: Semantics<D>, b: Bytecode, data: D, steps: nat)
    requires Decoded(b)
    ensures InStep(b, IndexRun(sem, b, Running(0, data), steps), OffsetRun(sem, b.bytecode, Running(0, data), steps))
  {
    if steps == 0 {
      var end: nat :| end >= |b.bytecode| && Chain(b.bytecode, b.instructions, end);
    } else {
      Lockstep(sem, b, data, steps - 1);
      StepStaysInStep(sem, b, IndexRun(sem, b, Running(0, data), steps - 1),
                      OffsetRun(sem, b.bytecode, Running(0, data), steps - 1));
    }
  }

  /** Push data is never executed: a running machine is at an instruction boundary or past the end. */
  lemma PushDataIsNeverExecuted<D(!new)>(sem: Semantics<D>, b: Bytecode, data: D, steps: nat)
    requires Decoded(b)
    ensures var m := OffsetRun(sem, b.bytecode, Running(0, data), steps);
            m.Running? ==> m.pc in Boundaries(b.bytecode, 0) || m.pc >= |b.bytecode|
  {
    Lockstep(sem, b, data, steps);
    var m := OffsetRun(sem, b.bytecode, Running(0, data), steps);
    if m.Running? {
      JumpdestsAreValidDests(b, m.pc);
    }
  }

  // ----- the link to the interpreter ----------------------------------------------------

  /** The byte offset an instruction index stands for. */
  function Position(b: Bytecode, pc: nat): nat {
    if pc < |b.instructions| then b.instructions[pc].offset else |b.bytecode|
  }

  /** The control transfers an opcode may ask for. */
  predicate MayAsk(op: Byte, control: Control) {
    match control
    case Advance => op != JUMP
    case Jump(_) => op == JUMP
    case JumpIf(_) => op == JUMPI
    case Stop => false
  }

  /** Going from index `pc` to index `pc'` is what the reference machine does on the bytes. */
  ghost predicate Advances(b: Bytecode, op: Byte, pc: nat, pc': nat) {
    exists control ::
      && MayAsk(op, control) && Successor(b.bytecode, Position(b, pc), control).Some?
      && Position(b, pc') == Min(Successor(b.bytecode, Position(b, pc), control).value, |b.bytecode|)
  }

  lemma NextIndexAdvances(b: Bytecode, op: Byte, pc: nat)
    requires Decoded(b) && pc < |b.instructions| && op != JUMP
    ensures Advances(b, op, pc, pc + 1)
  {
    var end: nat :| end >= |b.bytecode| && Chain(b.bytecode, b.instructions, end);
    assert MayAsk(op, Advance) && Successor(b.bytecode, Position(b, pc), Advance).Some?;
  }

  lemma TakenJumpAdvances(b: Bytecode, op: Byte, pc: nat, target: nat)
    requires Decoded(b) && target < |b.instructions| && (op == JUMP || op == JUMPI)
    requires var dest := b.instructions[target].offset; dest in ValidDests(b.bytecode, 0) || (op == JUMPI && dest == 0)
    ensures Advances(b, op, pc, target)
  {
    var dest := b.instructions[target].offset;
    var end: nat :| end >= |b.bytecode| && Chain(b.bytecode, b.instructions, end);
    var control := if op == JUMP then Jump(dest) else JumpIf(dest);
    assert MayAsk(op, control) && Successor(b.bytecode, Position(b, pc), control).Some?;
  }

  /** The opcode stands at an instruction boundary of the bytes. */
  ghost predicate Contains(code: seq<Byte>, op: Byte) {
    exists pos :: pos in Boundaries(code, 0) && DefinedCode(ByteAt(code, pos)) == op
  }

  lemma ContainsItsInstructions(b: Bytecode, i: nat)
    requires Decoded(b) && i < |b.instructions|
    ensures Contains(b.bytecode, b.instructions[i].opcode)
  {
    JumpdestsAreValidDests(b, b.instructions[i].offset);
  }
}
