/** What every run of a frame promises, proved from the relations alone: where its gas went, and whose storage it can
    have changed. */
module Runs {
  import opened Types
  import opened Opcodes
  import opened State
  import opened Journal
  import opened Segments
  import opened Limits
  import opened GasRules
  import opened Metering
  import opened Ledger
  import opened Decoder
  import opened Semantics

  // ----- gas ----------------------------------------------------------------------------

  /** What one iteration costs: the charge, and what the frames it opened have used. */
  function TickCost(tick: Tick): int
    requires tick.result.Ok?
  {
    tick.mid.gas.used - tick.head.gas.used + tick.result.cost
  }

  function Spent(ticks: seq<Tick>): int
    requires forall i :: 0 <= i < |ticks| ==> ticks[i].result.Ok?
  {
    if ticks == [] then 0 else Spent(ticks[..|ticks| - 1]) + TickCost(ticks[|ticks| - 1])
  }

  /** The frame fails at the end of this iteration. */
  predicate Burns(code: Bytecode, tick: Tick) {
    || !IsRunning(code, tick.head) || !tick.result.Ok? || OpAt(code, tick.head) == INVALID
    || tick.result.cost > tick.mid.gas.Remaining()
  }

  /** The gas a frame has used is the sum of what its instructions cost, or everything once it has failed. */
  lemma {:induction false} GasIsSum(remote: Remote, code: Bytecode, call: Call, ctx: Context, s: Snap, ticks: seq<Tick>,
                                    t: Snap)
    requires Path(remote, code, call, ctx, s, ticks, t)
    ensures forall i :: 0 <= i < |ticks| - 1 ==> !Burns(code, ticks[i])
    ensures if ticks != [] && Burns(code, ticks[|ticks| - 1]) then t.gas.used == t.gas.limit && t.stopped && t.reverted
            else (forall i :: 0 <= i < |ticks| ==> ticks[i].result.Ok?) && t.gas.used == s.gas.used + Spent(ticks)
  {
    hide Performs;
    if ticks != [] {
      var front, tick := ticks[..|ticks| - 1], ticks[|ticks| - 1];
      GasIsSum(remote, code, call, ctx, s, front, tick.head);
      assert forall i :: 0 <= i < |front| ==> ticks[i] == front[i];
    }
  }

  /** The same for a whole frame, whose gas counter starts at nothing. */
  lemma FrameGasIsSum(remote: Remote, code: Bytecode, call: Call, ctx: Context, run: Trace)
    requires Executes(remote, code, call, ctx, run) && run.first.gas.used == 0
    ensures if run.ticks != [] && Burns(code, run.ticks[|run.ticks| - 1])
            then run.last.gas.used == run.last.gas.limit && run.last.reverted
            else (forall i :: 0 <= i < |run.ticks| ==> run.ticks[i].result.Ok?) && run.last.gas.used == Spent(run.ticks)
  {
    hide Path;
    if ctx.depth <= CALL_DEPTH_LIMIT {
      GasIsSum(remote, code, call, ctx, AtEntry(run.first, call), run.ticks, run.last);
    }
  }

  // ----- instructions that open no frame ------------------------------------------------

  /** Storage outside one account reads the same. */
  ghost predicate SameElsewhere(remote: Remote, w: World, w': World, self: Address) {
    forall k: Slot :: k.addr != self ==> Read(remote.storage, w.cache, k) == Read(remote.storage, w'.cache, k)
  }

  lemma LocalStep(s: Snap, t: Snap, op: Byte, code: Bytecode, data: seq<Byte>, ctx: Context, r: StepResult)
    requires LocalSpec(s, t, op, code, data, ctx, r) && !r.Panic?
    ensures t.world == s.world && (r.Ok? ==> t.gas == s.gas)
  {
    hide ShapeOf, MemoryPrice, Resized, CeilDiv;
  }

  lemma FetchReads(remote: Remote, c: Cache, k: Slot)
    ensures forall j :: Read(remote.storage, Fetch(true, remote.storage, c, k), j) == Read(remote.storage, c, j)
  {
  }

  lemma StorageStep(remote: Remote, s: Snap, t: Snap, op: Byte, self: Address, ctx: Context, r: StepResult)
    requires op == SLOAD || op == SSTORE
    requires WorldSpec(remote, s, t, op, self, ctx, r)
    ensures SameElsewhere(remote, s.world, t.world, self) && (r.Ok? ==> t.gas.used == s.gas.used)
  {
    hide Cost, Refund, OriginalOf, LeakMarks, Join;
    if op == SLOAD {
      var k: Slot :| k.addr == self && SloadSpec(remote, s, t, k, r);
      FetchReads(remote, s.world.cache, k);
    } else {
      var k: Slot, next: Word :| k.addr == self && SstoreSpec(remote, s, t, ctx, k, next, r);
      FetchReads(remote, s.world.cache, k);
    }
  }

  lemma WorldStep(remote: Remote, s: Snap, t: Snap, op: Byte, self: Address, ctx: Context, r: StepResult)
    requires WorldSpec(remote, s, t, op, self, ctx, r)
    ensures SameElsewhere(remote, s.world, t.world, self) && (r.Ok? ==> t.gas.used == s.gas.used)
  {
    if op == SLOAD || op == SSTORE {
      StorageStep(remote, s, t, op, self, ctx, r);
    } else {
      hide MemoryPrice, Resized, CeilDiv, AccountNote, DrainMarks, Join, AccessPrice, AccessEntries;
      assert t.world.cache == s.world.cache;
    }
  }

  /** An instruction that opens no frame uses no gas but what it is charged, and changes no storage but its own
      account's. */
  lemma PlainStep(remote: Remote, code: Bytecode, call: Call, ctx: Context, s: Snap, r: StepResult, t: Snap)
    requires IsRunning(code, s) && Performs(remote, code, call, ctx, s, r, t)
    requires !OpensFrame(OpAt(code, s)) && !r.Panic?
    ensures SameElsewhere(remote, s.world, t.world, Self(call, ctx)) && (r.Ok? ==> t.gas.used == s.gas.used)
  {
    hide LocalSpec, WorldSpec, ValidDests;
    var op := OpAt(code, s);
    if op != INVALID {
      var m, moved :| && Dispatches(remote, s, m, op, code, call, ctx, moved, r)
                      && t == if r.Ok? && !moved then m.(pc := m.pc + 1) else m;
      if op != STOP && op != JUMP && op != JUMPI {
        if Touches(op) {
          WorldStep(remote, s, m, op, Self(call, ctx), ctx, r);
        } else {
          LocalStep(s, m, op, code, call.data, ctx, r);
        }
      }
    }
  }

  /** So a tick without frames costs exactly its charge. */
  lemma PlainTickCost(remote: Remote, code: Bytecode, call: Call, ctx: Context, tick: Tick)
    requires IsRunning(code, tick.head) && !OpensFrame(OpAt(code, tick.head)) && tick.result.Ok?
    requires Performs(remote, code, call, ctx, Fetched(code, tick.head), tick.result, tick.mid)
    ensures TickCost(tick) == tick.result.cost
  {
    hide Performs;
    PlainStep(remote, code, call, ctx, Fetched(code, tick.head), tick.result, tick.mid);
  }

  // ----- runs that open no frame --------------------------------------------------------

  ghost predicate OpensNone(code: Bytecode) {
    forall i :: 0 <= i < |code.instructions| ==> !OpensFrame(code.instructions[i].opcode)
  }

  lemma {:induction false} OwnStorageOnly(remote: Remote, code: Bytecode, call: Call, ctx: Context, s: Snap,
                                          ticks: seq<Tick>, t: Snap)
    requires Path(remote, code, call, ctx, s, ticks, t) && OpensNone(code)
    ensures SameElsewhere(remote, s.world, t.world, Self(call, ctx))
  {
    hide Performs, OpensFrame;
    if ticks != [] {
      var front, tick := ticks[..|ticks| - 1], ticks[|ticks| - 1];
      assert forall i :: 0 <= i < |front| ==> front[i] == ticks[i];
      OwnStorageOnly(remote, code, call, ctx, s, front, tick.head);
      PlainStep(remote, code, call, ctx, Fetched(code, tick.head), tick.result, tick.mid);
    }
  }

  // ----- child frames -------------------------------------------------------------------

  /** The code holds no instruction that opens a frame. */
  ghost predicate OpensNothing(code: seq<Byte>) {
    forall op :: OpensFrame(op) ==> !Contains(code, op)
  }

  lemma OpensNothingOpensNone(code: Bytecode)
    requires Decoded(code) && OpensNothing(code.bytecode)
    ensures OpensNone(code)
  {
    hide OpensFrame, Contains, Decoded;
    forall i | 0 <= i < |code.instructions| ensures !OpensFrame(code.instructions[i].opcode) {
      ContainsItsInstructions(code, i);
    }
  }

  /** A child whose code opens no frames changes no storage but that of the account it runs as, whether it succeeds or
      is undone. */
  lemma ChildOwnStorage(remote: Remote, child: Child, w: World)
    requires Ran(remote, child) && OpensNothing(child.program.bytecode)
    requires if child.trace.last.reverted then Restored(remote, child.book, w) else w == child.trace.last.world
    ensures SameElsewhere(remote, child.trace.first.world, w, Self(child.call, child.ctx))
  {
    hide Consistent, Executes, OpensNothing, OpensNone, Decoded, Restored, Self;
    if child.trace.last.reverted {
      RestoredStorage(remote, child.book, w);
    } else {
      OpensNothingOpensNone(child.program);
      FrameOwnStorage(remote, child.program, child.call, child.ctx, child.trace);
    }
  }

  lemma FrameOwnStorage(remote: Remote, code: Bytecode, call: Call, ctx: Context, run: Trace)
    requires Executes(remote, code, call, ctx, run) && OpensNone(code)
    ensures SameElsewhere(remote, run.first.world, run.last.world, Self(call, ctx))
  {
    hide Path, OpensNone, Self;
    if ctx.depth <= CALL_DEPTH_LIMIT {
      OwnStorageOnly(remote, code, call, ctx, AtEntry(run.first, call), run.ticks, run.last);
    }
  }

  /** What a successful call says about its callee. */
  lemma CalledContext(remote: Remote, s: Snap, t: Snap, self: Address, call: Call, ctx: Context, operand: Word,
                      plan: Plan, child: Child, r: StepResult)
    requires CallSpec(remote, s, t, self, call, ctx, operand, plan, child, r) && r.Ok? && !IsPrecompile(plan.address)
    ensures child.ctx == ctx.(depth := ctx.depth + 1) && plan.value == CallValue(call, ctx, operand)
    ensures child.program.bytecode == plan.code && Ran(remote, child)
    ensures if ctx.callType == Delegate || ctx.callType == Callcode
            then child.call.from == call.from && child.call.to == self
            else child.call.from == self && child.call.to == plan.address
    ensures child.call.value == plan.value
    ensures child.trace.first.world.cache == s.world.cache
    ensures if child.trace.last.reverted then Restored(remote, child.book, t.world)
            else t.world == child.trace.last.world
    ensures ctx.isStatic ==> SameStorage(remote, s.world, t.world)
    ensures OpensNothing(plan.code) ==> SameElsewhere(remote, s.world, t.world, Self(child.call, child.ctx))
    ensures t.gas.used + r.cost == s.gas.used + plan.base + child.trace.last.gas.used - plan.stipend
  {
    hide Called, Merged, Ran, IsUndo, Restored, Survivors, Leftover, CalleeEntries, MemoryPrice, CalleeCode, PlanPrice,
         CalleeWorld, AfterTransfer, TransferEntries, OpensNothing;
    var g := Poised(remote, s, ctx, plan);
    CalledFacts(remote, g, t, self, call, ctx, plan, child);
    MergedFacts(remote, Paying(remote, g, self, ctx, plan), t, ctx, plan, child);
    LookupKeepsCache(remote, s.world, plan.address);
    TransferKeepsCache(remote, g.world, self, ctx, plan);
    if ctx.isStatic {
      StaticChild(remote, child, t.world);
    }
    if OpensNothing(plan.code) {
      ChildOwnStorage(remote, child, t.world);
    }
  }

  lemma CalledFacts(remote: Remote, s: Snap, t: Snap, self: Address, call: Call, ctx: Context, plan: Plan, child: Child)
    requires Called(remote, s, t, self, call, ctx, plan, child)
    ensures child.call.value == plan.value
    ensures if ctx.callType == Delegate || ctx.callType == Callcode
            then child.call.from == call.from && child.call.to == self
            else child.call.from == self && child.call.to == plan.address
    ensures Merged(remote, Paying(remote, s, self, ctx, plan), t, ctx, plan, child)
  {
    hide Merged, Paying;
  }

  lemma MergedFacts(remote: Remote, s: Snap, t: Snap, ctx: Context, plan: Plan, child: Child)
    requires Merged(remote, s, t, ctx, plan, child)
    ensures child.ctx == ctx.(depth := ctx.depth + 1) && child.program.bytecode == plan.code && Ran(remote, child)
    ensures child.trace.first.world == s.world
    ensures t.gas.used == s.gas.used + child.trace.last.gas.used - plan.stipend
    ensures if child.trace.last.reverted then Restored(remote, child.book, t.world)
            else t.world == child.trace.last.world
  {
    hide Ran, Restored, IsUndo, Forwarded, Join, LeftMarks, LeftBy;
  }

  lemma LookupKeepsCache(remote: Remote, w: World, a: Address)
    ensures CalleeWorld(remote, w, a).cache == w.cache
  {
    hide BigEndian;
  }

  lemma TransferKeepsCache(remote: Remote, w: World, self: Address, ctx: Context, plan: Plan)
    ensures AfterTransfer(remote, w, self, ctx, plan).cache == w.cache
  {
  }

  /** A child leaves storage as it found it if it is static, whether it succeeds or is undone. */
  lemma StaticChild(remote: Remote, child: Child, w: World)
    requires Ran(remote, child) && child.ctx.isStatic
    requires if child.trace.last.reverted then Restored(remote, child.book, w) else w == child.trace.last.world
    ensures SameStorage(remote, child.trace.first.world, w)
  {
    hide Executes, Tracks, Originals, ClearedRefund, Resets;
    if child.trace.last.reverted {
      RestoredStorage(remote, child.book, w);
    }
  }

  lemma RestoredStorage(remote: Remote, b: Book, w: World)
    requires Restored(remote, b, w)
    ensures SameStorage(remote, b.start, w)
  {
    forall k ensures Read(remote.storage, b.start.cache, k) == Read(remote.storage, w.cache, k) {
      assert Claimed(b.marks, Storage(k));
      assert Peek(remote, w, Storage(k)) == Peek(remote, b.start, Storage(k));
    }
  }
}
