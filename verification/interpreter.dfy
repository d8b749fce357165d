/** The mutually recursive interpreter of src/executor.rs: the fetch loop, the dispatch, and the
    instructions that open child frames.  Its termination measure is gas. */
module Interpreter {
  import opened Types
  import opened Opcodes
  import opened State
  import opened Journal
  import opened Segments
  import opened Limits
  import opened GasRules
  import opened Metering
  import opened Ledger
  import opened Machine
  import opened Decoder
  import opened Semantics
  import opened Runs
  import opened Steps

  /** The opcodes that may do what the journal cannot take back. */
  predicate MayMark(op: Byte) {
    OpensFrame(op) || op == SLOAD || op == SSTORE || op == SELFDESTRUCT
  }

  /** The context a frame runs in agrees with its books. */
  ghost predicate InContext(b: Book, ctx: Context) {
    ctx.isStatic == b.isStatic && ctx.depth == b.levels + 1
  }

  // ----- CALL, CALLCODE, DELEGATECALL, STATICCALL ---------------------------------------

  /** EIP-2929 access cost of a callee, and of the account it delegates to; the code to run. */
  method ResolveCallee(evm: Evm, ext: Ext, address: Address) returns (acc: Account, code: seq<Byte>, cost: int)
    requires evm.Sound(ext)
    modifies evm`touches, evm`book, ext
    ensures evm.Sound(ext) && evm.Unmarked() && cost >= 100
    ensures ext.View() == CalleeWorld(ext.remote, old(ext.View()), address)
    ensures evm.touches == old(evm.touches) + CalleeEntries(ext.remote, old(ext.View()), address)
    ensures acc == AccountOf(ext.remote, old(ext.View()), address)
    ensures code == CalleeCode(ext.remote, old(ext.View()), address)
    ensures cost == CalleePrice(ext.remote, old(ext.View()), address)
  {
    hide Consistent, BigEndian, AccessEntries, AccessPrice, Looked, LookEntries, Accessed, Opening;
    ghost var w := ext.View();
    LookedReads(ext.remote, w, address);
    acc, cost := Look(evm, ext, address);
    code := acc.code;
    if IsDelegation(code) {
      var target := BigEndian(code[3..]);
      SameLook(ext.remote, Accessed(w, address), ext.View(), target);
      var targetAcc, targetCost := Look(evm, ext, target);
      cost := cost + 100 + (targetCost - 100);
      code := targetAcc.code;
    }
  }

  /** Load an account, note its code, pay for the access. */
  method Look(evm: Evm, ext: Ext, a: Address) returns (acc: Account, cost: int)
    requires evm.Sound(ext)
    modifies evm`touches, evm`book, ext
    ensures evm.Sound(ext) && evm.Unmarked() && cost == AccessPrice(old(ext.View()), a) >= 100
    ensures acc == AccountOf(ext.remote, old(ext.View()), a)
    ensures evm.touches == old(evm.touches) + LookEntries(ext.remote, old(ext.View()), a)
    ensures ext.View() == Looked(ext.remote, old(ext.View()), a)
  {
    hide Consistent;
    acc := evm.LoadAccount(a, ext);
    evm.Note(GetCode(a, acc.code), ext);
    cost := evm.AccessCost(a, ext);
  }

  lemma LookedReads(r: Remote, w: World, a: Address)
    ensures var x := Looked(r, w, a);
            && x.warmAddresses == Accessed(w, a).warmAddresses && Accessed(w, a).accounts == w.accounts
            && (forall b :: AccountOf(r, x, b) == AccountOf(r, w, b) == AccountOf(r, Accessed(w, a), b))
  {
  }

  lemma SameLook(r: Remote, w: World, w': World, a: Address)
    requires w'.warmAddresses == w.warmAddresses && forall b :: AccountOf(r, w', b) == AccountOf(r, w, b)
    ensures AccessPrice(w', a) == AccessPrice(w, a) && LookEntries(r, w', a) == LookEntries(r, w, a)
  {
  }

  /** Everything `call` does before it knows whether it can pay: it fails exactly when operands are missing or memory
      would grow too far. */
  method PlanCall(evm: Evm, ext: Ext, call: Call, ctx: Context, operand: Word) returns (ok: bool, plan: Plan)
    requires Ready(evm, ext)
    modifies evm, ext
    ensures evm.Sound(ext) && evm.Unmarked() && evm.gas.used <= evm.gas.limit
    ensures ok <==> old(evm.stack) >= CallOperands(ctx) && !TooFar(old(evm.Now(ext)), PlanEnd(plan))
    ensures !ok ==> Stuck(old(evm.Now(ext)), evm.Now(ext))
    ensures ok ==> evm.Now(ext) == Poised(ext.remote, old(evm.Now(ext)), ctx, plan)
    ensures ok ==> Planned(ext.remote, old(evm.Now(ext)), call, ctx, operand, plan)
    ensures ok ==> evm.MemoryPriced() && old(evm.memory) <= evm.memory && evm.stack < STACK_LIMIT
  {
    hide Consistent, MemoryPrice, Grow, CalleeCode, PlanPrice, CalleeEntries, CalleeWorld, CallBase, Opening, PlanEnd;
    var growth;
    ok, plan, growth := TakeCall(evm, ext, call, ctx, operand);
    if !ok { return; }
    plan := PriceCall(evm, ext, ctx, plan, growth);
    SamePlanEnd(plan);
  }

  lemma SamePlanEnd(plan: Plan)
    ensures forall code, base: int, stipend: nat ::
      PlanEnd(plan.(code := code, base := base, stipend := stipend)) == PlanEnd(plan)
  {
  }

  /** Take the operands of a call and grow the memory for its arguments and its result. */
  method TakeCall(evm: Evm, ext: Ext, call: Call, ctx: Context, operand: Word)
    returns (ok: bool, plan: Plan, growth: int)
    requires evm.MemoryPriced() && evm.gas.used <= evm.gas.limit && evm.stack <= STACK_LIMIT
    modifies evm`stopped, evm`reverted, evm`gas, evm`stack, evm`memory, evm`memCost
    ensures evm.gas == old(evm.gas).(used := evm.gas.used) && evm.gas.used <= evm.gas.limit && evm.stack <= STACK_LIMIT
    ensures plan.value == CallValue(call, ctx, operand)
    ensures ok <==> old(evm.stack) >= CallOperands(ctx) && !TooFar(old(evm.Now(ext)), PlanEnd(plan))
    ensures !ok ==> Stuck(old(evm.Now(ext)), evm.Now(ext))
    ensures ok ==>
      var s := old(evm.Now(ext));
      evm.Now(ext) == Grow(s, PlanEnd(plan)).(stack := s.stack - CallOperands(ctx))
    ensures ok ==> growth == evm.memCost - old(evm.memCost) >= 0 && evm.MemoryPriced() && old(evm.memory) <= evm.memory
  {
    hide MemoryPrice, Resized, RoundUp;
    var asked: nat, address: Address :| asked >= 0 && address >= 0;
    var argsOffset: nat, argsSize: nat, retOffset: nat, retSize: nat :|
      argsOffset >= 0 && argsSize >= 0 && retOffset >= 0 && retSize >= 0;
    plan := Plan(address, CallValue(call, ctx, operand), asked, argsOffset, argsSize, retOffset, retSize, [], 0, 0);
    growth := 0;
    ok := evm.Pop(CallOperands(ctx));
    if !ok { return; }
    var argsMax := if argsSize > 0 then argsOffset + argsSize else 0;
    var retMax := if retSize > 0 then retOffset + retSize else 0;
    ok, growth := Expand(evm, Max(argsMax, retMax));
  }

  /** Look up the callee, price the call, set the stipend. */
  method PriceCall(evm: Evm, ext: Ext, ctx: Context, taken: Plan, growth: int) returns (plan: Plan)
    requires evm.Sound(ext) && growth >= 0
    modifies evm`touches, evm`book, ext
    ensures evm.Sound(ext) && evm.Unmarked() && ext.View() == CalleeWorld(ext.remote, old(ext.View()), taken.address)
    ensures evm.touches == old(evm.touches) + CalleeEntries(ext.remote, old(ext.View()), taken.address)
    ensures plan == taken.(code := plan.code, base := plan.base, stipend := plan.stipend)
    ensures plan.code == CalleeCode(ext.remote, old(ext.View()), taken.address)
    ensures plan.stipend == if MovesValue(ctx) && taken.value != 0 then STIPEND else 0
    ensures CallBase(plan.base, plan.stipend)
    ensures plan.base == growth + PlanPrice(ext.remote, old(ext.View()), ctx, plan)
  {
    hide Consistent, CalleeCode, CalleePrice, CalleeEntries, CalleeWorld, Opening;
    var acc, code, access := ResolveCallee(evm, ext, taken.address);
    var isEmpty := !IsPrecompile(taken.address) && acc == Account(0, 0, []);
    var base := access + growth + if taken.value != 0 && isEmpty then 25_000 else 0;
    var stipend := 0;
    if MovesValue(ctx) && taken.value != 0 {
      base := base + VALUE_COST;
      stipend := STIPEND;
    }
    plan := taken.(code := code, base := base, stipend := stipend);
  }

  /** A precompile is an arbitrary result and an arbitrary cost of at least -1, the cost of an oversized
      modexp after its cast.  It is charged before the base cost. */
  method PrecompileOp(evm: Evm, ext: Ext, plan: Plan) returns (r: StepResult, ghost price: int)
    requires Ready(evm, ext) && evm.stack < STACK_LIMIT && plan.base >= 100
    modifies evm`stopped, evm`reverted, evm`gas, evm`stack, evm`ret
    ensures Stepped(evm, ext, r)
    ensures PrecompileSpec(old(evm.Now(ext)), evm.Now(ext), plan, price, r)
  {
    hide Consistent, MemoryPrice, Opening;
    var cost: int, retLen: nat, failed: bool :| cost >= -1 && retLen >= 0 && (failed || !failed);
    price := cost;
    if !failed {
      var data := AnyBytes(retLen);
      evm.ret := data;
    }
    if plan.retOffset + Min(|evm.ret|, plan.retSize) > evm.memory { return Panic, price; }
    var ok := evm.Push();
    ok := evm.Charge(cost);
    if !ok { return Err, price; }
    r := Ok(plan.base);
  }

  /** Open a child frame with gas `limit`, decode its code and run it. */
  method RunChild(evm: Evm, ext: Ext, code: seq<Byte>, call: Call, ctx: Context, limit: int)
    returns (panicked: bool, inner: Evm, ghost child: Child)
    requires evm.Sound(ext)
    requires 0 <= limit && 64 * limit <= 63 * evm.gas.Remaining() && 100 <= evm.gas.Remaining() && 0 <= evm.gas.used
    requires (evm.book.isStatic ==> ctx.isStatic) && ctx.depth == evm.book.levels + 2
    modifies ext
    ensures fresh(inner)
    ensures !panicked ==> inner.Sound(ext) && inner.prelude == []
    ensures !panicked ==> Nested(ext.remote, evm.book, inner.book)
    ensures !panicked ==> old(ext.accounts).Keys <= ext.accounts.Keys
    ensures !panicked ==> Ran(ext.remote, child) && child.call == call && child.ctx == ctx
    ensures !panicked ==> child.program.bytecode == code && child.book == inner.book
    ensures !panicked ==> child.trace.first == Newborn(limit, old(ext.View())) && child.trace.last == inner.Now(ext)
    ensures !panicked ==> 0 <= inner.gas.used <= limit == inner.gas.limit && inner.book.start == old(ext.View())
    ensures !panicked && ctx.isStatic ==> SameStorage(ext.remote, old(ext.View()), ext.View())
    decreases limit, 8
  {
    hide Tracks, Originals, ClearedRefund, DepthBudget, SameStorage, Executes, Decoded, RanOnly, Resets, Caused;
    ghost var b := evm.book;
    ghost var book := Book(b.base, ctx.isStatic, b.top, b.levels + 1, limit, ext.View(), [], CLEAN, 0, false, {});
    BudgetShrinks(b.top, b.levels, b.limit, evm.gas.Remaining());
    BudgetDeepens(b.top, b.levels, evm.gas.Remaining(), limit);
    if b.levels + 1 >= CALL_DEPTH_LIMIT {
      DepthLimitNeedsGas(b.top, b.levels, evm.gas.Remaining());
    }
    OpenBook(ext.remote, book);
    inner := new Evm(limit, book);
    var program := Decode(code);
    ghost var first := inner.Now(ext);
    var crashed, ticks := ExecuteWithContext(inner, ext, program, call, ctx);
    panicked := crashed;
    child := Child(call, ctx, program, inner.book, Trace(first, ticks, inner.Now(ext)));
    if !panicked {
      assert inner.touches == inner.book.log;
      AccountsOnlyGrow(ext.remote, ext.View(), inner.book);
    }
  }

  lemma AccountsOnlyGrow(r: Remote, w: World, b: Book)
    requires Consistent(r, w, b)
    ensures b.start.accounts.Keys <= w.accounts.Keys
  {
  }

  /** `call`: pay the base cost, forward all but a 64th, transfer value, run the callee, merge it back. */
  method CallOp(evm: Evm, ext: Ext, self: Address, call: Call, ctx: Context, operand: Word)
    returns (r: StepResult, ghost plan: Plan, ghost child: Child)
    requires Ready(evm, ext) && (evm.book.isStatic ==> ctx.isStatic) && ctx.depth == evm.book.levels + 1
    modifies evm, ext
    ensures Progressed(evm, ext, r) && evm.pc == old(evm.pc) && !r.Halt?
    ensures CallSpec(ext.remote, old(evm.Now(ext)), evm.Now(ext), self, call, ctx, operand, plan, child, r)
    ensures r.Ok? ==> plan.value == CallValue(call, ctx, operand)
    ensures r.Ok? ==> evm.stack == old(evm.stack) - CallOperands(ctx) + 1
    decreases evm.gas.Remaining(), 1
  {
    hide Consistent, MemoryPrice, Resized, PlanEnd, CalleeCode, PlanPrice, CalleeEntries, CalleeWorld, Called;
    child := NoChild(evm, ext, call, ctx);
    var ok, planned := PlanCall(evm, ext, call, ctx, operand);
    plan := planned;
    if !ok { return Err, plan, child; }
    if planned.base > evm.gas.Remaining() {
      ok := evm.Push();
      return Err, plan, child;
    }
    if IsPrecompile(planned.address) {
      var result, _ := PrecompileOp(evm, ext, planned);
      return result, plan, child;
    }
    r, child := EnterCallee(evm, ext, self, call, ctx, planned);
  }

  /** A placeholder for instructions that open no frame after all. */
  ghost function NoChild(evm: Evm, ext: Ext, call: Call, ctx: Context): Child
    reads evm, ext
  {
    Child(call, ctx, Bytecode([], [], []), evm.book, Trace(evm.Now(ext), [], evm.Now(ext)))
  }

  /** The value transfer of a call happens in the caller's journal, before the callee runs. */
  method TransferValue(evm: Evm, ext: Ext, self: Address, ctx: Context, plan: Plan)
    requires evm.Sound(ext)
    modifies evm`touches, evm`book, ext`accounts
    ensures evm.Sound(ext) && evm.Unmarked()
    ensures evm.Now(ext) == Paying(ext.remote, old(evm.Now(ext)), self, ctx, plan)
  {
    hide Consistent, Transferred;
    var sender := evm.LoadAccount(self, ext);
    var receiver := evm.LoadAccount(plan.address, ext);
    if plan.value != 0 && MovesValue(ctx) && sender.value >= plan.value && self != plan.address {
      evm.Pay(self, plan.address, plan.value, ext);
    }
  }

  /** Transfer the value and run the callee. */
  method EnterCallee(evm: Evm, ext: Ext, self: Address, call: Call, ctx: Context, plan: Plan)
    returns (r: StepResult, ghost child: Child)
    requires Ready(evm, ext) && (evm.book.isStatic ==> ctx.isStatic) && ctx.depth == evm.book.levels + 1
    requires evm.stack < STACK_LIMIT && CallBase(plan.base, plan.stipend) && plan.base <= evm.gas.Remaining()
    modifies evm, ext
    ensures Progressed(evm, ext, r) && evm.pc == old(evm.pc) && (r == Ok(plan.base) || r.Panic?)
    ensures r.Ok? ==> Called(ext.remote, old(evm.Now(ext)), evm.Now(ext), self, call, ctx, plan, child)
    ensures r.Ok? ==> evm.stack == old(evm.stack) + 1
    decreases evm.gas.Remaining(), 0, 1
  {
    hide Consistent, MemoryPrice, CallBase, Merged, AfterTransfer, TransferEntries;
    TransferValue(evm, ext, self, ctx, plan);
    var data := AnyBytes(plan.argsSize);
    var asCaller := ctx.callType == Delegate || ctx.callType == Callcode;
    var innerCall := if asCaller then Call(data, plan.value, call.from, self)
                     else Call(data, plan.value, self, plan.address);
    r, child := RunCallee(evm, ext, innerCall, ctx, plan);
  }

  /** Forward the gas, run the callee, take back what it did not use. */
  method RunCallee(evm: Evm, ext: Ext, innerCall: Call, ctx: Context, plan: Plan)
    returns (r: StepResult, ghost child: Child)
    requires Ready(evm, ext) && (evm.book.isStatic ==> ctx.isStatic) && ctx.depth == evm.book.levels + 1
    requires evm.stack < STACK_LIMIT && CallBase(plan.base, plan.stipend) && plan.base <= evm.gas.Remaining()
    modifies evm`stack, evm`touches, evm`book, evm`gas, evm`ret, evm`stopped, evm`reverted, ext
    ensures Progressed(evm, ext, r) && (r == Ok(plan.base) || r.Panic?)
    ensures r.Ok? ==> child.call == innerCall && evm.stack == old(evm.stack) + 1
    ensures r.Ok? ==> Merged(ext.remote, old(evm.Now(ext)), evm.Now(ext), ctx, plan, child)
    decreases evm.gas.Remaining(), 0, 0
  {
    hide Consistent, MemoryPrice, Nested, Forwarded, Restored, IsUndo, Ran, Survivors, Leftover, Join;
    child := NoChild(evm, ext, innerCall, ctx);
    var forwarded := Forwarded(evm.gas.Remaining(), plan.base, plan.asked, plan.stipend);
    ChildLimit(evm.gas.Remaining(), plan.base, plan.asked, plan.stipend);
    var panicked, inner, entered := RunChild(evm, ext, plan.code, innerCall, ctx.(depth := ctx.depth + 1), forwarded);
    if panicked { return Panic, child; }
    child := entered;
    assert inner.touches == inner.book.log;
    CallerCanStillPay(evm.gas.Remaining(), plan.base, plan.asked, plan.stipend, inner.gas.used);
    evm.gas := evm.gas.Charge(inner.gas.used).Charge(0 - plan.stipend);
    Return(evm, ext, inner);
    r := Ok(plan.base);
  }

  /** The callee is done: its return data and verdict go to the caller, its journal is kept or undone. */
  method Return(evm: Evm, ext: Ext, inner: Evm)
    requires evm != inner && evm.Booked() && evm.stack < STACK_LIMIT
    requires Nested(ext.remote, evm.book, inner.book) && inner.Sound(ext) && inner.prelude == []
    modifies evm`stack, evm`touches, evm`book, evm`gas, evm`ret, evm`stopped, evm`reverted, ext
    ensures evm.Sound(ext) && evm.Carried()
    ensures evm.book.ran == old(evm.book).ran + inner.book.ran
    ensures evm.book.marks == Join(old(evm.book).marks,
              if inner.reverted then Leftover(ext.remote, inner.book.start, inner.touches, inner.book.marks)
              else inner.book.marks)
    ensures evm.gas == Repaid(old(evm.gas), 0, if inner.reverted then 0 else inner.gas.refund)
    ensures evm.stopped == old(evm.stopped) && evm.reverted == old(evm.reverted)
    ensures evm.ret == inner.ret && evm.stack == old(evm.stack) + 1
    ensures evm.touches == old(evm.touches) + if inner.reverted then Survivors(inner.touches) else inner.touches
    ensures if inner.reverted
            then
              && IsUndo(ext.remote, old(ext.View()), inner.touches, ext.View())
              && Restored(ext.remote, inner.book, ext.View())
            else ext.View() == old(ext.View())
  {
    hide Consistent, Nested, Restored, IsUndo, Join, Leftover, Survivors, Discarded, Absorbed, Opening;
    assert inner.touches == inner.book.log;
    evm.ret := inner.ret;
    var ok := evm.Push();
    if inner.reverted {
      evm.Discard(inner, ext);
    } else {
      evm.Absorb(inner, ext);
    }
  }

  // ----- CREATE, CREATE2 ----------------------------------------------------------------

  /** Take the operands of a creation and read its init code from memory: `Ok` carries the price of the growth. */
  method TakeInit(evm: Evm, ext: Ext, ctx: Context)
    returns (r: StepResult, value: Word, init: seq<Byte>, ghost at: nat)
    requires evm.MemoryPriced() && evm.gas.used <= evm.gas.limit && evm.stack <= STACK_LIMIT
    modifies evm`stopped, evm`reverted, evm`gas, evm`stack, evm`memory, evm`memCost
    ensures r.Ok? || r.Err? || r.Panic?
    ensures r.Err? <==> old(evm.stack) < CreateOperands(ctx) || (init != [] && TooFar(old(evm.Now(ext)), at + |init|))
    ensures r.Err? ==> Stuck(old(evm.Now(ext)), evm.Now(ext))
    ensures !r.Err? ==>
      var s := old(evm.Now(ext));
      var g := if init == [] then s else Grow(s, at + |init|);
      && evm.Now(ext) == g.(stack := s.stack - CreateOperands(ctx)) && (r.Panic? <==> at + |init| > g.memory)
      && (r.Ok? ==> r.cost == g.memCost - s.memCost >= 0)
    ensures r.Ok? ==> evm.MemoryPriced() && old(evm.memory) <= evm.memory && evm.gas == old(evm.gas)
    ensures evm.stack <= STACK_LIMIT && evm.gas == old(evm.gas).(used := evm.gas.used)
    ensures old(evm.gas.used) <= evm.gas.used <= evm.gas.limit
  {
    hide MemoryPrice, Resized, RoundUp;
    value, init := 0, [];
    var offset: nat, size: nat :| offset >= 0 && size >= 0;
    at := offset;
    var ok := evm.Pop(CreateOperands(ctx));
    if !ok { return Err, value, init, at; }
    var growth: int := 0;
    init := AnyBytes(size);
    if size > 0 {
      ok, growth := Expand(evm, offset + size);
      if !ok { return Err, value, init, at; }
    }
    if offset + size > evm.memory { return Panic, value, init, at; }    // slicing past the end
    value :| value >= 0;
    r := Ok(growth);
  }

  /** `create`: count the creator's nonce, run the init code, and deploy what it returns. */
  method CreateOp(evm: Evm, ext: Ext, self: Address, ctx: Context)
    returns (r: StepResult, ghost at: nat, ghost code: seq<Byte>, ghost n: Creation, ghost child: Child)
    requires Ready(evm, ext) && InContext(evm.book, ctx) && (CREATE in evm.book.ran || CREATE2 in evm.book.ran)
    modifies evm, ext
    ensures Progressed(evm, ext, r) && evm.pc == old(evm.pc) && !r.Halt?
    ensures CreateSpec(ext.remote, old(evm.Now(ext)), evm.Now(ext), self, ctx, at, code, n, child, r)
    ensures r.Ok? ==>
      var end, words := child.trace.last, CeilDiv(|code|, 32);
      var base := evm.memCost - old(evm.memCost) + 32_000 + (if ctx.callType == Create2 then 8 else 2) * words;
      var limit := (old(evm.gas).Remaining() - base) - (old(evm.gas).Remaining() - base) / 64;
      var spent := end.gas.used + if end.reverted then 0 else 200 * |end.ret|;
      && evm.stack == old(evm.stack) - (if ctx.callType == Create2 then 3 else 2)
      && end.gas.limit == limit && evm.gas.used == old(evm.gas.used) + base + Min(limit, spent)
    decreases evm.gas.Remaining(), 1
  {
    hide Consistent, MemoryPrice, Grow, CeilDiv, Creates;
    child := NoChild(evm, ext, Call([], 0, self, 0), ctx);
    n := Creation(self, 0, [], 0, false);
    var taken, value, init, offset := TakeInit(evm, ext, ctx);
    at, code := offset, init;
    if !taken.Ok? { return taken, at, code, n, child; }
    r, n, child := Create(evm, ext, self, value, init, taken.cost + CreateBase(ctx, |init|), ctx);
  }

  /** The part of a creation after its operands are taken. */
  method Create(evm: Evm, ext: Ext, self: Address, value: Word, init: seq<Byte>, base: int, ctx: Context)
    returns (r: StepResult, ghost n: Creation, ghost child: Child)
    requires Ready(evm, ext) && InContext(evm.book, ctx) && (CREATE in evm.book.ran || CREATE2 in evm.book.ran)
    requires base >= 32_000 && evm.stack < STACK_LIMIT
    modifies evm, ext
    ensures Progressed(evm, ext, r) && evm.pc == old(evm.pc) && !r.Halt?
    ensures Creates(ext.remote, old(evm.Now(ext)), evm.Now(ext), self, ctx, init, base, n, child, r)
    ensures r.Ok? ==> evm.memCost == old(evm.memCost) && CreationGas(old(evm.Now(ext)), evm.Now(ext), base, child)
    decreases evm.gas.Remaining(), 0, 1
  {
    hide Consistent, MemoryPrice, Created, Preparing;
    child := NoChild(evm, ext, Call([], 0, self, 0), ctx);
    var created := PrepareCreate(evm, ext, self);
    n := Creation(self, created, [], 0, false);
    if evm.gas.Remaining() - base <= 0 { return Panic, n, child; }
    r, n, child := EnterCreate(evm, ext, self, created, value, init, base, ctx);
  }

  /** Count up the creator's nonce; warm and enter the created address, an arbitrary one. */
  method PrepareCreate(evm: Evm, ext: Ext, self: Address) returns (created: Address)
    requires evm.Sound(ext) && (CREATE in evm.book.ran || CREATE2 in evm.book.ran)
    modifies evm`touches, evm`book, ext
    ensures evm.Sound(ext) && evm.Kept() && self in ext.accounts && created in ext.accounts
    ensures evm.Now(ext) == Preparing(ext.remote, old(evm.Now(ext)), self, created)
  {
    hide Consistent, EnterMarks, Join, Counted, PreparedEntries;
    created := Reserve(evm, ext, self);
    evm.Enter(created, ext);
  }

  /** Count up the creator's nonce and warm the created address. */
  method Reserve(evm: Evm, ext: Ext, self: Address) returns (created: Address)
    requires evm.Sound(ext) && (CREATE in evm.book.ran || CREATE2 in evm.book.ran)
    modifies evm`touches, evm`book, ext
    ensures evm.Sound(ext) && evm.Kept() && self in ext.accounts
    ensures ext.View() == Counted(ext.remote, old(ext.View()), self, created)
    ensures evm.touches == old(evm.touches) + PreparedEntries(ext.remote, old(ext.View()), self, created)
    ensures evm.book.marks == Join(old(evm.book).marks, CLEAN.(nonces := {self}))
  {
    hide Consistent, Join, Opening;
    var _ := evm.LoadAccount(self, ext);
    evm.BumpNonce(self, ext);
    created :| created >= 0;
    if created !in ext.accessedAddresses {
      evm.Warm(created, ext);
    }
    assert ext.View() == Counted(ext.remote, old(ext.View()), self, created);
  }

  method EnterCreate(evm: Evm, ext: Ext, self: Address, created: Address, value: Word, init: seq<Byte>, base: int,
                     ctx: Context)
    returns (r: StepResult, ghost n: Creation, ghost child: Child)
    requires Ready(evm, ext) && InContext(evm.book, ctx) && (CREATE in evm.book.ran || CREATE2 in evm.book.ran)
    requires evm.stack < STACK_LIMIT && 32_000 <= base < evm.gas.Remaining()
    requires self in ext.accounts && created in ext.accounts
    modifies evm, ext
    ensures Progressed(evm, ext, r) && evm.pc == old(evm.pc) && (r == Ok(0) || r.Panic?)
    ensures n == Creation(self, created, n.code, value, MovesValue(ctx))
    ensures r.Ok? ==> Created(ext.remote, old(evm.Now(ext)), evm.Now(ext), init, base, ctx, n, child)
    ensures r.Ok? ==> evm.memCost == old(evm.memCost) && CreationGas(old(evm.Now(ext)), evm.Now(ext), base, child)
    decreases evm.gas.Remaining(), 0, 0
  {
    hide Consistent, MemoryPrice, Nested, Ran, Concluded;
    child := NoChild(evm, ext, Call([], value, self, 0), ctx);
    n := Creation(self, created, [], value, MovesValue(ctx));
    var rest := evm.gas.Remaining() - base;
    var forwarded := rest - rest / 64;
    var innerCall, innerCtx := Call([], value, self, 0), ctx.(created := created, depth := ctx.depth + 1);
    ghost var s := evm.Now(ext);
    var panicked, inner, entered := RunChild(evm, ext, init, innerCall, innerCtx, forwarded);
    if panicked { return Panic, n, child; }
    child := entered;
    var creation := Creation(self, created, inner.ret, value, MovesValue(ctx));
    ghost var m := evm.Now(ext);
    Conclude(evm, ext, inner, creation, base, forwarded, child);
    n, r := creation, Ok(0);
    SameButWorld(ext.remote, s, m, evm.Now(ext), base, forwarded, n, child);
    ConcludedGas(ext.remote, s, evm.Now(ext), base, forwarded, n, child);
  }

  /** What a creation costs and what its init code was given. */
  ghost predicate CreationGas(s: Snap, t: Snap, base: int, child: Child) {
    var rest, end := s.gas.Remaining() - base, child.trace.last;
    var spent := end.gas.used + if end.reverted then 0 else 200 * |end.ret|;
    && t.stack == s.stack + 1 && end.gas.limit == rest - rest / 64
    && t.gas.used == s.gas.used + base + Min(rest - rest / 64, spent)
  }

  lemma ConcludedGas(remote: Remote, s: Snap, t: Snap, base: int, limit: int, n: Creation, child: Child)
    requires Concluded(remote, s, t, base, limit, n, child)
    ensures var end := child.trace.last;
            t.gas.used == s.gas.used + base + Min(limit, end.gas.used + if end.reverted then 0 else 200 * |end.ret|)
    ensures t.stack == s.stack + 1 && t.memCost == s.memCost
  {
    hide Left, Installed, InstallEntries, CommitMarks, Survivors, Join, LeftMarks;
  }

  lemma SameButWorld(remote: Remote, s: Snap, m: Snap, t: Snap, base: int, limit: int, n: Creation, child: Child)
    requires m == s.(world := m.world) && Concluded(remote, m, t, base, limit, n, child)
    ensures Concluded(remote, s, t, base, limit, n, child)
  {
    hide Left, Installed, InstallEntries, CommitMarks, Survivors, Join, LeftMarks;
  }

  /** Charge for a creation and conclude it. */
  method Conclude(evm: Evm, ext: Ext, inner: Evm, n: Creation, base: int, limit: int, ghost child: Child)
    requires evm != inner && evm.Booked() && evm.stack < STACK_LIMIT
    requires Nested(ext.remote, evm.book, inner.book) && inner.Sound(ext) && inner.prelude == []
    requires BothCached(ext.View(), n) && (CREATE in evm.book.ran || CREATE2 in evm.book.ran) && n.code == inner.ret
    requires child.trace.last == inner.Now(ext) && child.book == inner.book
    requires child.trace.first.world == inner.book.start && 0 <= inner.gas.used <= limit
    modifies evm`stack, evm`touches, evm`book, evm`gas, evm`stopped, evm`reverted, ext
    ensures evm.Sound(ext) && evm.Carried() && evm.stopped == old(evm.stopped)
    ensures old(evm.gas.used) + base <= evm.gas.used <= old(evm.gas.used) + base + limit
    ensures Concluded(ext.remote, old(evm.Now(ext)), evm.Now(ext), base, limit, n, child)
  {
    hide Consistent, Nested, Installed, InstallEntries, Survivors, CommitMarks, Join, Finished, Opening;
    var deposit := if inner.reverted then 0 else 200 * |inner.ret|;
    if limit < inner.gas.used + deposit {
      evm.gas := evm.gas.Charge(base + limit);
    } else {
      evm.gas := evm.gas.Charge(base + deposit + inner.gas.used);
    }
    assert evm.gas == old(evm.gas).Charge(base + Min(limit, inner.gas.used + deposit));
    FinishCreate(evm, ext, inner, n, inner.reverted || limit < inner.gas.used + deposit, child);
  }

  /** The child of a creation is done: undo it, or deploy what it returned. */
  method FinishCreate(evm: Evm, ext: Ext, inner: Evm, n: Creation, fails: bool, ghost child: Child)
    requires evm != inner && evm.Booked() && evm.stack < STACK_LIMIT
    requires Nested(ext.remote, evm.book, inner.book) && inner.Sound(ext) && inner.prelude == []
    requires BothCached(ext.View(), n) && (CREATE in evm.book.ran || CREATE2 in evm.book.ran)
    requires child.trace.last == inner.Now(ext) && child.book == inner.book
    requires child.trace.first.world == inner.book.start
    modifies evm`stack, evm`touches, evm`book, evm`gas, evm`stopped, evm`reverted, ext
    ensures evm.Sound(ext) && evm.Carried() && evm.stopped == old(evm.stopped) && evm.gas.used == old(evm.gas.used)
    ensures Finished(ext.remote, old(evm.Now(ext)), evm.Now(ext), n, child, fails)
  {
    hide Consistent, Nested, Finished, Opening;
    if fails {
      Abandon(evm, ext, inner, n, child);
    } else {
      Commit(evm, ext, inner, n, child);
    }
  }

  /** A failed creation is undone. */
  method Abandon(evm: Evm, ext: Ext, inner: Evm, ghost n: Creation, ghost child: Child)
    requires evm != inner && evm.Booked() && evm.stack < STACK_LIMIT
    requires Nested(ext.remote, evm.book, inner.book) && inner.Sound(ext) && inner.prelude == []
    requires BothCached(ext.View(), n) && (CREATE in evm.book.ran || CREATE2 in evm.book.ran)
    requires child.trace.last == inner.Now(ext) && child.book == inner.book
    requires child.trace.first.world == inner.book.start
    modifies evm`stack, evm`touches, evm`book, evm`gas, evm`stopped, evm`reverted, ext
    ensures evm.Sound(ext) && evm.Carried() && evm.stopped == old(evm.stopped) && evm.gas.used == old(evm.gas.used)
    ensures Finished(ext.remote, old(evm.Now(ext)), evm.Now(ext), n, child, true)
  {
    hide Consistent, Nested, Restored, IsUndo, Leftover, Join, Survivors, Discarded, Opening;
    assert inner.touches == inner.book.log;
    var ok := evm.Push();
    evm.Discard(inner, ext);
  }

  /** A successful creation is deployed. */
  method Commit(evm: Evm, ext: Ext, inner: Evm, n: Creation, ghost child: Child)
    requires evm != inner && evm.Booked() && evm.stack < STACK_LIMIT
    requires Nested(ext.remote, evm.book, inner.book) && inner.Sound(ext) && inner.prelude == []
    requires BothCached(ext.View(), n) && (CREATE in evm.book.ran || CREATE2 in evm.book.ran)
    requires child.trace.last == inner.Now(ext) && child.book == inner.book
    requires child.trace.first.world == inner.book.start
    modifies evm`stack, evm`touches, evm`book, evm`gas, evm`stopped, evm`reverted, ext
    ensures evm.Sound(ext) && evm.Carried() && evm.stopped == old(evm.stopped) && evm.gas.used == old(evm.gas.used)
    ensures Finished(ext.remote, old(evm.Now(ext)), evm.Now(ext), n, child, false)
  {
    hide Consistent, Nested, Installed, InstallEntries, CommitMarks, Join, Committed, Opening;
    assert inner.touches == inner.book.log;
    evm.Deploy(inner, ext, n);
    var ok := evm.Push();
  }

  // ----- dispatch and loop --------------------------------------------------------------

  /** The four call instructions: a failing call is a halt that takes all remaining gas. */
  method CallFamilyOp(evm: Evm, ext: Ext, op: Byte, self: Address, call: Call, ctx: Context)
    returns (r: StepResult, ghost operand: Word, ghost plan: Plan, ghost child: Child, ghost outcome: StepResult)
    requires Ready(evm, ext) && InContext(evm.book, ctx) && IsCall(op) && self == Self(call, ctx)
    modifies evm, ext
    ensures Progressed(evm, ext, r) && evm.pc == old(evm.pc)
    ensures FamilySpec(ext.remote, old(evm.Now(ext)), evm.Now(ext), op, call, ctx, operand, plan, child, outcome, r)
    ensures r.Halt? ==> r.cost == evm.gas.Remaining()
    ensures r.Ok? ==> evm.stack == old(evm.stack) - if op == CALL || op == CALLCODE then 6 else 5
    ensures r.Ok? && op == CALL && ctx.callType == Static ==> plan.value == 0
    ensures r.Ok? && !IsPrecompile(plan.address) ==>
      // who the callee runs as, and on whose behalf
      && (op == DELEGATECALL || op == CALLCODE ==> Self(child.call, child.ctx) == self && child.call.from == call.from)
      && (op == CALL || op == STATICCALL ==> child.call.from == self && child.call.to == plan.address)
      && (op == CALL || op == CALLCODE ==> child.call.value == operand)
      && (op == DELEGATECALL ==> child.call.value == call.value) && (op == STATICCALL ==> child.call.value == 0)
      // static frames
      && (op == STATICCALL || ctx.isStatic ==>
            child.ctx.isStatic && SameStorage(ext.remote, old(ext.View()), ext.View()))
      // foreign code that opens no frames stays within the account it runs as
      && (OpensNothing(plan.code) ==>
            SameElsewhere(ext.remote, old(ext.View()), ext.View(), Self(child.call, child.ctx)))
      // gas
      && evm.gas.used + r.cost == old(evm.gas.used) + plan.base + child.trace.last.gas.used - plan.stipend
    decreases evm.gas.Remaining(), 2, 0
  {
    hide Consistent, MemoryPrice, Planned, Poised, PrecompileSpec, Called, SameStorage, SameElsewhere, OpensNothing;
    var value: Word :| value >= 0;
    operand, plan, child := value, Plan(0, 0, 0, 0, 0, 0, 0, [], 0, 0), NoChild(evm, ext, call, ctx);
    outcome := Err;
    if op == CALL && ctx.callType == Static && (evm.stack < 3 || value != 0) {
      return Err, operand, plan, child, outcome;
    }
    ghost var s := evm.Now(ext);
    r, plan, child := CallOp(evm, ext, self, call, ChildContext(op, ctx), value);
    outcome := r;
    if r.Ok? && !IsPrecompile(plan.address) {
      CalledContext(ext.remote, s, evm.Now(ext), self, call, ChildContext(op, ctx), operand, plan, child, r);
    }
    if r.Err? {
      r := Halt(evm.gas.Remaining());
    }
  }

  /** One opcode.  `moved` reports that the program counter is already where it belongs. */
  method Dispatch(evm: Evm, ext: Ext, op: Byte, code: Bytecode, call: Call, ctx: Context)
    returns (r: StepResult, moved: bool)
    requires Ready(evm, ext) && InContext(evm.book, ctx) && Decoded(code) && code.instructions != []
    requires op != INVALID && op in evm.book.ran
    modifies evm, ext
    ensures Progressed(evm, ext, r) && (!OpensFrame(op) ==> evm.Kept()) && (!MayMark(op) ==> evm.Unmarked())
    ensures if moved then op == STOP || op == JUMP || op == JUMPI else evm.pc == old(evm.pc)
    ensures Dispatches(ext.remote, old(evm.Now(ext)), evm.Now(ext), op, code, call, ctx, moved, r)
    decreases evm.gas.Remaining(), 3
  {
    hide Consistent, MemoryPrice, Decoded, FrameSpec, LocalSpec, WorldSpec, JumpSpec;
    moved := false;
    if op == STOP {
      evm.pc := |code.instructions|;
      evm.stopped, evm.reverted, evm.ret := true, false, [];
      r, moved := Ok(0), true;
    } else if op == JUMP || op == JUMPI {
      var step, jumped, _, _ := JumpOp(evm, ext, op, code);
      r, moved := step, jumped;
    } else if OpensFrame(op) {
      r := DispatchFrame(evm, ext, op, Self(call, ctx), call, ctx);
    } else if Touches(op) {
      r := DispatchWorld(evm, ext, op, Self(call, ctx), ctx);
    } else {
      r := DispatchLocal(evm, ext, op, code, call.data, ctx);
    }
  }

  /** The opcodes that work on the frame alone. */
  method DispatchLocal(evm: Evm, ext: Ext, op: Byte, code: Bytecode, data: seq<Byte>, ctx: Context)
    returns (r: StepResult)
    requires Ready(evm, ext)
    modifies evm`stopped, evm`reverted, evm`gas, evm`stack, evm`memory, evm`memCost, evm`ret
    ensures Stepped(evm, ext, r)
    ensures LocalSpec(old(evm.Now(ext)), evm.Now(ext), op, code, data, ctx, r)
  {
    hide Consistent, MemoryPrice, ShapeOf, StackSpec, PricedSpec, MemorySpec, CopySpec, McopySpec, LogSpec, ReturnSpec;
    if ShapeOf(op).Some? {
      r := StackOp(evm, ext, op, ShapeOf(op).value);
    } else if op == EXP || op == SHA3 {
      var step, _ := PricedOp(evm, ext, op);
      r := step;
    } else if MLOAD <= op <= MSTORE8 {
      var step, _ := MemoryOp(evm, ext, op);
      r := step;
    } else if op == CALLDATACOPY || op == CODECOPY || op == RETURNDATACOPY {
      var step, _, _, _ := CopyOp(evm, ext, op, CopySource(op, code, data));
      r := step;
    } else if op == MCOPY {
      var step, _, _, _ := McopyOp(evm, ext);
      r := step;
    } else if LOG0 <= op <= LOG4 {
      var step, _, _ := LogOp(evm, ext, op, ctx);
      r := step;
    } else if op == RETURN || op == REVERT {
      var step, _, _ := ReturnOp(evm, ext, op);
      r := step;
    } else {
      r := Err;    // unknown opcode
    }
  }

  /** The opcodes that reach the world state. */
  method DispatchWorld(evm: Evm, ext: Ext, op: Byte, self: Address, ctx: Context) returns (r: StepResult)
    requires Ready(evm, ext) && InContext(evm.book, ctx) && op in evm.book.ran && Touches(op)
    modifies evm, ext
    ensures Lapsed(evm, ext, r) && (!MayMark(op) ==> evm.Unmarked())
    ensures WorldSpec(ext.remote, old(evm.Now(ext)), evm.Now(ext), op, self, ctx, r)
  {
    hide Consistent, MemoryPrice, AccountSpec, SelfBalanceSpec, ExtCodeCopySpec, SloadSpec, SstoreSpec, TstoreSpec,
         DestructSpec;
    if op == SELFBALANCE {
      r := SelfBalanceOp(evm, ext, self);
    } else if op == EXTCODECOPY {
      var step, _, _, _, _ := ExtCodeCopyOp(evm, ext);
      r := step;
    } else if op == SLOAD {
      var step, _ := SloadOp(evm, ext, self);
      r := step;
    } else if op == SSTORE {
      var step, _, _ := SstoreOp(evm, ext, self, ctx);
      r := step;
    } else if op == TSTORE {
      var step, _, _ := TstoreOp(evm, ext, self);
      r := step;
    } else if op == SELFDESTRUCT {
      var step, _ := SelfDestructOp(evm, ext, self, ctx);
      r := step;
    } else {
      var step, _ := AccountOp(evm, ext, op);
      r := step;
    }
  }

  /** The opcodes that open frames. */
  method DispatchFrame(evm: Evm, ext: Ext, op: Byte, self: Address, call: Call, ctx: Context) returns (r: StepResult)
    requires Ready(evm, ext) && InContext(evm.book, ctx) && op in evm.book.ran
    requires OpensFrame(op) && self == Self(call, ctx)
    modifies evm, ext
    ensures Progressed(evm, ext, r) && evm.pc == old(evm.pc)
    ensures FrameSpec(ext.remote, old(evm.Now(ext)), evm.Now(ext), op, call, ctx, r)
    decreases evm.gas.Remaining(), 2, 1
  {
    hide Consistent, MemoryPrice, FamilySpec, CreateSpec;
    if IsCall(op) {
      var step, _, _, _, _ := CallFamilyOp(evm, ext, op, self, call, ctx);
      r := step;
    } else {
      if ctx.callType == Static { return Err; }
      var step, _, _, _, _ := CreateOp(evm, ext, self, CreateContext(op, ctx));
      r := step;
    }
  }

  /** One instruction.  The index it goes on to is where the bytes would go on. */
  method ExecuteInstruction(evm: Evm, ext: Ext, instruction: Instruction, code: Bytecode, call: Call, ctx: Context)
    returns (r: StepResult)
    requires Ready(evm, ext) && InContext(evm.book, ctx) && Decoded(code) && instruction.opcode in evm.book.ran
    requires IsRunning(code, evm.Now(ext)) && instruction == code.instructions[evm.pc]
    modifies evm, ext
    ensures Performs(ext.remote, code, call, ctx, old(evm.Now(ext)), r, evm.Now(ext))
    ensures instruction.opcode != INVALID ==> Progressed(evm, ext, r)
    ensures instruction.opcode == INVALID ==> r == Ok(0) && evm.Kept() && evm.Sound(ext) && evm.gas == old(evm.gas)
    ensures !OpensFrame(instruction.opcode) ==> evm.Kept()
    ensures !MayMark(instruction.opcode) ==> evm.Unmarked()
    ensures r.Ok? && !evm.stopped ==> Advances(code, instruction.opcode, old(evm.pc), evm.pc)
    decreases evm.gas.Remaining(), 4
  {
    hide Consistent, MemoryPrice, Decoded, Dispatches, Advances, ValidDests;
    var moved := false;
    r := Ok(0);
    ghost var s := evm.Now(ext);
    if instruction.opcode != INVALID {
      r, moved := Dispatch(evm, ext, instruction.opcode, code, call, ctx);
    }
    ghost var m := evm.Now(ext);
    if r.Ok? && !moved {
      if instruction.opcode == JUMP {
        JumpsMove(ext.remote, s, m, JUMP, code, call, ctx, moved, r);
      } else {
        NextIndexAdvances(code, instruction.opcode, evm.pc);
      }
      evm.pc := evm.pc + 1;
    } else if r.Ok? && instruction.opcode != STOP {
      JumpsMove(ext.remote, s, m, instruction.opcode, code, call, ctx, moved, r);
      TakenJumpAdvances(code, instruction.opcode, old(evm.pc), evm.pc);
    } else if r.Ok? {
      StopStops(ext.remote, s, m, code, call, ctx, moved, r);
    }
  }

  lemma JumpsMove(remote: Remote, s: Snap, t: Snap, op: Byte, code: Bytecode, call: Call, ctx: Context, moved: bool,
                  r: StepResult)
    requires Dispatches(remote, s, t, op, code, call, ctx, moved, r) && r.Ok? && (op == JUMP || op == JUMPI)
    ensures op == JUMP ==> moved
    ensures moved ==>
      && t.pc < |code.instructions|
      && var dest := code.instructions[t.pc].offset;
         dest in ValidDests(code.bytecode, 0) || (op == JUMPI && dest == 0)
  {
    hide ValidDests;
  }

  lemma StopStops(remote: Remote, s: Snap, t: Snap, code: Bytecode, call: Call, ctx: Context, moved: bool,
                  r: StepResult)
    requires Dispatches(remote, s, t, STOP, code, call, ctx, moved, r)
    ensures t.stopped
  {
  }

  /** The frame is over and all its gas is gone. */
  method Burn(evm: Evm, ext: Ext)
    requires evm.Sound(ext) && evm.gas.used <= evm.gas.limit
    modifies evm`stopped, evm`reverted, evm`gas, evm`ret
    ensures evm.Sound(ext) && evm.Now(ext) == Burnt(old(evm.Now(ext)))
  {
    hide Consistent;
    evm.stopped, evm.reverted, evm.ret := true, true, [];
    var ok := evm.Charge(evm.gas.Remaining());
  }

  lemma LimitedBook(r: Remote, w: World, b: Book)
    requires Consistent(r, w, b) && b.levels >= CALL_DEPTH_LIMIT
    ensures Consistent(r, w, b.(limited := true))
  {
  }

  lemma SameOpening(b: Book, c: Book)
    ensures Opening(b) == Opening(c) ==> b.isStatic == c.isStatic && b.levels == c.levels && b.limit == c.limit
  {
  }

  lemma NothingRan(code: seq<Byte>)
    ensures RanOnly(code, {})
  {
  }

  lemma RanOneMore(code: seq<Byte>, ran: set<Byte>, op: Byte, after: set<Byte>)
    requires RanOnly(code, ran) && Contains(code, op) && (OpensFrame(op) || after == ran + {op})
    ensures RanOnly(code, after)
  {
  }

  lemma PathGrows(remote: Remote, code: Bytecode, call: Call, ctx: Context, s: Snap, ticks: seq<Tick>, tick: Tick)
    requires Path(remote, code, call, ctx, s, ticks, tick.head)
    requires ticks != [] ==> !Destroys(code, ticks[|ticks| - 1])
    requires IsRunning(code, tick.head) && tick.head.gas.limit == s.gas.limit && !tick.result.Panic?
    requires Performs(remote, code, call, ctx, Fetched(code, tick.head), tick.result, tick.mid)
    ensures Path(remote, code, call, ctx, s, ticks + [tick], Charged(OpAt(code, tick.head), tick))
  {
    hide Performs;
    assert (ticks + [tick])[..|ticks|] == ticks;
  }

  /** One iteration of the fetch loop: execute the instruction and charge for it. */
  method Iterate(evm: Evm, ext: Ext, code: Bytecode, call: Call, ctx: Context)
    returns (panicked: bool, leaves: bool, ghost tick: Tick)
    requires Ready(evm, ext) && InContext(evm.book, ctx) && Decoded(code) && IsRunning(code, evm.Now(ext))
    modifies evm, ext
    ensures evm.Carried() && tick.head == old(evm.Now(ext)) && (panicked <==> tick.result.Panic?)
    ensures Performs(ext.remote, code, call, ctx, Fetched(code, tick.head), tick.result, tick.mid)
    ensures !panicked ==> evm.Now(ext) == Charged(OpAt(code, tick.head), tick)
    ensures !panicked ==> evm.Sound(ext) && 0 <= evm.gas.used <= evm.gas.limit
    ensures !panicked && leaves ==> evm.stopped || OpAt(code, tick.head) == SELFDESTRUCT
    ensures !panicked && !leaves ==> OpAt(code, tick.head) != SELFDESTRUCT
    ensures !panicked && !leaves && !evm.stopped ==> evm.MemoryPriced() && evm.gas.used > old(evm.gas.used)
    ensures OpensFrame(OpAt(code, tick.head)) || evm.book.ran == old(evm.book).ran + {OpAt(code, tick.head)}
    decreases evm.gas.Remaining(), 5
  {
    hide Consistent, MemoryPrice, Decoded, Advances, OpensFrame, Opening, Performs;
    var instruction := code.instructions[evm.pc];
    ghost var head := evm.Now(ext);
    RanBook(ext.remote, ext.View(), evm.book, instruction.opcode);
    evm.book := evm.book.(ran := evm.book.ran + {instruction.opcode});
    ghost var before := evm.book;
    SameOpening(before, before.(ran := head.ran));
    var r := ExecuteInstruction(evm, ext, instruction, code, call, ctx);
    SameOpening(before, evm.book);
    tick, leaves := Tick(head, r, evm.Now(ext)), true;
    if r.Panic? { return true, true, tick; }
    if !r.Ok? || instruction.opcode == INVALID {
      Burn(evm, ext);
      return false, true, tick;
    }
    var paid := evm.Charge(r.cost);
    if !paid || instruction.opcode == SELFDESTRUCT {
      evm.ret := [];
      return false, true, tick;
    }
    return false, false, tick;
  }

  /** The fetch loop: at every head, 0 <= used <= limit, and gas falls until the frame stops.  The frame it leaves is
      the end of a run in which every tick does what its instruction specifies and is charged what it costs. */
  method Loop(evm: Evm, ext: Ext, code: Bytecode, call: Call, ctx: Context)
    returns (panicked: bool, ghost ticks: seq<Tick>)
    requires Decoded(code)
    requires Ready(evm, ext) && InContext(evm.book, ctx) && evm.gas.used == 0 && evm.book.ran == {}
    modifies evm, ext
    ensures evm.Carried()
    ensures !panicked ==> evm.Sound(ext) && 0 <= evm.gas.used <= evm.gas.limit
    ensures !panicked ==> Path(ext.remote, code, call, ctx, old(evm.Now(ext)), ticks, evm.Now(ext))
    ensures !panicked ==> Over(code, ticks, evm.Now(ext))
    ensures !panicked ==> RanOnly(code.bytecode, evm.book.ran)
    ensures code.instructions == [] ==> !panicked
    decreases evm.gas.limit, 6
  {
    hide Consistent, MemoryPrice, Decoded, Contains, RanOnly, OpensFrame, Opening, Path, Performs, Charged;
    NothingRan(code.bytecode);
    ghost var start := evm.Now(ext);
    ghost var opening := evm.book;
    ticks := [];
    EmptyPath(ext.remote, code, call, ctx, start);
    while !evm.stopped && evm.pc < |code.instructions|
      invariant evm.Carried() && RanOnly(code.bytecode, evm.book.ran)
      invariant evm.Sound(ext) && 0 <= evm.gas.used <= evm.gas.limit
      invariant InContext(evm.book, ctx) && evm.gas.limit == start.gas.limit
      invariant evm.stopped || evm.MemoryPriced()
      invariant Path(ext.remote, code, call, ctx, start, ticks, evm.Now(ext))
      invariant ticks != [] ==> !Destroys(code, ticks[|ticks| - 1])
      decreases if evm.stopped then 0 else 1, evm.gas.Remaining()
    {
      ghost var ran := evm.book.ran;
      ContainsItsInstructions(code, evm.pc);
      var crashed, leaves, tick := Iterate(evm, ext, code, call, ctx);
      RanOneMore(code.bytecode, ran, OpAt(code, tick.head), evm.book.ran);
      SameOpening(opening, evm.book);
      if crashed { return true, ticks; }
      PathGrows(ext.remote, code, call, ctx, start, ticks, tick);
      ticks := ticks + [tick];
      if leaves { return false, ticks; }
    }
    return false, ticks;
  }

  lemma EmptyPath(remote: Remote, code: Bytecode, call: Call, ctx: Context, s: Snap)
    ensures Path(remote, code, call, ctx, s, [], s)
  {
  }

  /** One frame, at any depth: for every bytecode and every choice of operands it terminates, never overspends its gas,
      leaves books that balance, and ends where its run says. */
  method ExecuteWithContext(evm: Evm, ext: Ext, code: Bytecode, call: Call, ctx: Context)
    returns (panicked: bool, ghost ticks: seq<Tick>)
    requires Decoded(code)
    requires Ready(evm, ext) && InContext(evm.book, ctx) && evm.gas.used == 0 && evm.book.ran == {}
    modifies evm, ext
    ensures evm.Carried()
    ensures !panicked ==> evm.Sound(ext) && 0 <= evm.gas.used <= evm.gas.limit
    ensures !panicked ==> RanOnly(code.bytecode, evm.book.ran)
    ensures !panicked ==>
      Executes(ext.remote, code, call, ctx, Trace(old(evm.Now(ext)), ticks, evm.Now(ext)))
    ensures code.instructions == [] ==> !panicked
    ensures ctx.depth > CALL_DEPTH_LIMIT ==> !panicked && evm.book.limited
    decreases evm.gas.limit, 7
  {
    hide Consistent, MemoryPrice, Decoded, Path, RanOnly;
    NothingRan(code.bytecode);
    if call.from != 0 && call.from !in ext.accessedAddresses {
      evm.Warm(call.from, ext);
    }
    if ctx.depth > CALL_DEPTH_LIMIT {
      LimitedBook(ext.remote, ext.View(), evm.book);
      evm.book := evm.book.(limited := true);
      evm.stopped, evm.reverted, evm.ret := true, true, [];
      return false, [];
    }
    panicked, ticks := Loop(evm, ext, code, call, ctx);
  }
}
