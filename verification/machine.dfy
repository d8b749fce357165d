/** The mutable halves of the interpreter: the world cache `Ext` (src/ext.rs) and the frame `Evm`
    (src/executor.rs), with the invariant a frame keeps at every step. */
module Machine {
  import opened Types
  import opened Opcodes
  import opened State
  import opened Journal
  import opened Segments
  import opened Limits
  import opened GasRules
  import opened Metering
  import opened Ledger
  import opened Semantics

  lemma ConsistentUndo(r: Remote, w: World, b: Book)
    requires Consistent(r, w, b)
    ensures UndoDefined(b.log, w)
  {
  }

  class Ext {
    const remote: Remote
    var accounts: map<Address, Account>
    var state: map<Slot, Word>
    var original: map<Slot, Word>
    var transient: map<Slot, Word>
    var accessedAddresses: set<Address>
    var accessedStorage: set<Slot>

    constructor (remote: Remote)
      ensures this.remote == remote
      ensures View() == World(map[], Cache(map[], map[]), map[], {}, {})
    {
      this.remote := remote;
      accounts, state, original, transient := map[], map[], map[], map[];
      accessedAddresses, accessedStorage := {}, {};
    }

    ghost function View(): World
      reads this
    {
      World(accounts, Cache(state, original), transient, accessedAddresses, accessedStorage)
    }

    /** Start of a transaction: originals, transient storage and warmth are forgotten. */
    method Reset()
      modifies this
      ensures View() == old(View()).(cache := Cache(old(state), map[]), transient := map[],
                                     warmAddresses := {}, warmSlots := {})
    {
      original, transient := map[], map[];
      accessedAddresses, accessedStorage := {}, {};
    }

    method WarmAddress(a: Address) returns (wasCold: bool)
      modifies this`accessedAddresses
      ensures wasCold == (a !in old(accessedAddresses))
      ensures View() == Segments.WarmAddress(old(View()), a)
    {
      wasCold := a !in accessedAddresses;
      accessedAddresses := accessedAddresses + {a};
    }

    method WarmStorage(k: Slot)
      modifies this`accessedStorage
      ensures View() == WarmSlot(old(View()), k)
    {
      accessedStorage := accessedStorage + {k};
    }

    method Pull(a: Address)
      modifies this`accounts
      ensures View() == State.Pull(remote, old(View()), a) && a in accounts
    {
      if a !in accounts {
        accounts := accounts[a := remote.account(a)];
      }
    }

    /** `balance`, `nonce` and `code`: the account as it reads, cached from now on. */
    method Load(a: Address) returns (acc: Account)
      modifies this`accounts
      ensures View() == State.Pull(remote, old(View()), a) && a in accounts
      ensures acc == AccountOf(remote, old(View()), a) == accounts[a]
    {
      Pull(a);
      acc := accounts[a];
    }

    method Get(k: Slot) returns (v: Word)
      modifies this`accounts, this`state, this`original
      ensures v == Read(remote.storage, old(View()).cache, k)
      ensures View().cache == Fetch(true, remote.storage, old(View()).cache, k)
      ensures View() == State.Pull(remote, old(View()), k.addr).(cache := View().cache)
    {
      Pull(k.addr);
      if k in state {
        v := state[k];
      } else {
        v := remote.storage(k);
        state := state[k := v];
      }
      if k !in original {
        original := original[k := v];
      }
      assert state == old(state)[k := v];
    }

    /** Set the code and nonce of a created account and move its endowment, if the creator has it. */
    method Install(n: Creation) returns (own: seq<Touch>)
      requires BothCached(View(), n)
      modifies this`accounts
      ensures View() == Installed(old(View()), n)
      ensures own == InstallEntries(old(View()), n)
    {
      accounts := accounts[n.created := accounts[n.created].(code := n.code, nonce := 1)];
      var src, dst := accounts[n.creator].value, accounts[n.created].value;
      own := [];
      if n.value != 0 && n.pays && src >= n.value {
        accounts := accounts[n.creator := accounts[n.creator].(value := src - n.value)];
        accounts := accounts[n.created := accounts[n.created].(value := dst + n.value)];
        own := [SetValue(n.creator, src, src - n.value), SetValue(n.created, dst, dst + n.value)];
      }
      own := own + [Create(n.created, n.value, 1, n.code)];
    }

    method Put(k: Slot, v: Word)
      modifies this`state
      ensures state == old(state)[k := v]
    {
      state := state[k := v];
    }
  }

  class Evm {
    var memory: nat            // length in bytes
    var stack: nat             // number of words
    var gas: Gas
    var pc: nat
    var stopped: bool
    var reverted: bool
    var touches: seq<Touch>
    var memCost: int
    var ret: seq<Byte>         // `Executor::ret`, one per frame

    ghost var prelude: seq<Touch>  // touches recorded before the frame was opened
    ghost var book: Book

    constructor (limit: int, ghost book: Book)
      requires book == Opening(book) && book.limit == limit
      ensures gas == Gas(limit, 0, 0) && memory == 0 && stack == 0 && memCost == 0 && pc == 0
      ensures !stopped && !reverted && touches == [] && ret == []
      ensures prelude == [] && this.book == book
    {
      gas, memory, stack, memCost, pc := Gas(limit, 0, 0), 0, 0, 0, 0;
      stopped, reverted, touches, ret := false, false, [], [];
      prelude, this.book := [], book;
    }

    /** The frame's fields agree with its books. */
    ghost predicate Booked()
      reads this
    {
      touches == prelude + book.log && gas.limit == book.limit && gas.refund == book.refund && stack <= STACK_LIMIT
    }

    /** The frame invariant. */
    ghost predicate Sound(ext: Ext)
      reads this, ext
    {
      Booked() && Consistent(ext.remote, ext.View(), book)
    }

    /** The frame and its world as a value. */
    ghost function Now(ext: Ext): Snap
      reads this, ext
    {
      Snap(pc, gas, stack, memory, memCost, stopped, reverted, ret, touches, book.marks, book.ran, ext.View())
    }

    /** Memory is whole words, all paid for. */
    ghost predicate MemoryPriced()
      reads this
    {
      memory % 32 == 0 && memCost == MemoryPrice(memory / 32)
    }

    /** What no step within the frame changes; marks and counters may grow, and the journal at its end. */
    twostate predicate Kept()
      reads this
    {
      && prelude == old(prelude) && old(touches) <= touches
      && Opening(book) == Opening(old(book)) && book.ran == old(book).ran
    }

    /** The same, and everything the step did can be undone. */
    twostate predicate Unmarked()
      reads this
    {
      Kept() && book.marks == old(book).marks
    }

    /** What no step changes, when frames below it may have executed opcodes of their own. */
    twostate predicate Carried()
      reads this
    {
      && prelude == old(prelude) && old(touches) <= touches
      && Opening(book) == Opening(old(book)) && old(book).ran <= book.ran
    }

    /** Append to the journal and to the books. */
    method Record(ts: seq<Touch>, ext: Ext, ghost w: World, ghost g: Marks)
      requires Booked() && Consistent(ext.remote, w, book)
      requires Tracks(ext.remote, w, ts, ext.View(), g) && ext.View().cache == w.cache
      requires Caused(g, book.ran) && Storeless(ts)
      modifies this`touches, this`book
      ensures Sound(ext) && Kept() && book == Extended(old(book), ts, g) && touches == old(touches) + ts
    {
      hide Consistent, Tracks, Join;
      ExtendBook(ext.remote, w, book, ts, ext.View(), g);
      touches := touches + ts;
      book := Extended(book, ts, g);
    }

    /** Append entries that can all be taken back. */
    method Append(ts: seq<Touch>, ext: Ext, ghost w: World)
      requires Booked() && Consistent(ext.remote, w, book) && Storeless(ts)
      requires Tracks(ext.remote, w, ts, ext.View(), CLEAN) && ext.View().cache == w.cache
      modifies this`touches, this`book
      ensures Sound(ext) && Unmarked() && touches == old(touches) + ts
    {
      hide Consistent, Tracks, Join;
      JoinClean(book.marks);
      Record(ts, ext, w, CLEAN);
    }

    /** Exceptional halt: all gas is gone. */
    method Error()
      modifies this`stopped, this`reverted, this`gas
      ensures stopped && reverted && gas == old(gas).(used := old(gas).limit)
    {
      stopped, reverted := true, true;
      gas := gas.Charge(gas.Remaining());
    }

    method Push() returns (ok: bool)
      modifies this`stopped, this`reverted, this`gas, this`stack
      ensures ok == (old(stack) < STACK_LIMIT)
      ensures ok ==> stack == old(stack) + 1 && gas == old(gas) && stopped == old(stopped) && reverted == old(reverted)
      ensures !ok ==> stack == old(stack) && gas == old(gas).(used := old(gas).limit)
    {
      if stack >= STACK_LIMIT {
        Error();
        return false;
      }
      stack := stack + 1;
      ok := true;
    }

    /** `n` pops in a row; the first one to find the stack empty fails. */
    method Pop(n: nat) returns (ok: bool)
      modifies this`stopped, this`reverted, this`gas, this`stack
      ensures ok == (n <= old(stack))
      ensures ok ==> stack == old(stack) - n && gas == old(gas) && stopped == old(stopped) && reverted == old(reverted)
      ensures !ok ==> stack == 0 && gas == old(gas).(used := old(gas).limit)
    {
      if stack < n {
        stack := 0;
        Error();
        return false;
      }
      stack := stack - n;
      ok := true;
    }

    /** `gas`: charge, or take everything and fail. */
    method Charge(cost: int) returns (ok: bool)
      modifies this`stopped, this`reverted, this`gas
      ensures ok == (cost <= old(gas).Remaining())
      ensures ok ==> gas == old(gas).Charge(cost) && stopped == old(stopped) && reverted == old(reverted)
      ensures !ok ==> gas == old(gas).(used := old(gas).limit) && stopped && reverted
    {
      if cost > gas.Remaining() {
        gas := gas.Charge(Min(cost, gas.Remaining()));
        Error();
        return false;
      }
      gas := gas.Charge(cost);
      ok := true;
    }

    /** Grow the memory to cover `end`, unless that is beyond the sanity limit. */
    method Resize(end: nat) returns (ok: bool)
      modifies this`memory
      ensures ok <==> end <= old(memory) || end <= ALLOCATION_SANITY_LIMIT
      ensures memory == if ok then Resized(old(memory), end) else old(memory)
      ensures memory >= old(memory) && (old(memory) % 32 == 0 ==> memory % 32 == 0)
    {
      if end > memory {
        if end > ALLOCATION_SANITY_LIMIT {
          return false;
        }
        PaddingRoundsUp(end);
        var padding := 32 - end % 32;
        memory := end + padding % 32;
      }
      ok := true;
    }

    /** `memory_expansion_cost`: the price of the memory now, less the price of the `paid` bytes. */
    method ExpansionCost(ghost paid: nat) returns (cost: int)
      requires memory % 32 == 0 && paid <= memory && memCost == MemoryPrice(paid / 32)
      modifies this`memCost
      ensures MemoryPriced() && cost == memCost - old(memCost) >= 0
    {
      var words := CeilDiv(memory, 32);
      var price := words * words / 512 + 3 * words;
      cost := price - memCost;
      MemoryPriceMonotone(paid / 32, memory / 32);
      memCost := price;
    }

    /** `address_access_cost`: warm addresses and precompiles are cheap, and warming is journaled. */
    method AccessCost(a: Address, ext: Ext) returns (cost: int)
      requires Sound(ext)
      modifies this`touches, this`book, ext`accessedAddresses
      ensures Sound(ext) && Unmarked()
      ensures cost == AccessPrice(old(ext.View()), a)
      ensures cost == if 1 <= a <= 10 || a == 0x100 || a in old(ext.accessedAddresses) then 100 else 2600
      ensures touches == old(touches) + AccessEntries(old(ext.View()), a) && ext.View() == Accessed(old(ext.View()), a)
    {
      hide Consistent;
      if IsPrecompile(a) {
        return 100;
      }
      var isWarm := a in ext.accessedAddresses;
      if !isWarm {
        Warm(a, ext);
      }
      cost := if isWarm then 100 else 2600;
    }

    method Warm(a: Address, ext: Ext)
      requires Sound(ext) && a !in ext.accessedAddresses
      modifies this`touches, this`book, ext`accessedAddresses
      ensures Sound(ext) && Unmarked()
      ensures touches == old(touches) + [WarmUp(a)] && ext.View() == Segments.WarmAddress(old(ext.View()), a)
    {
      hide Consistent, Tracks;
      ghost var w := ext.View();
      var _ := ext.WarmAddress(a);
      WarmUpSegment(ext.remote, w, a);
      Append([WarmUp(a)], ext, w);
    }

    /** Record an entry that only reports. */
    method Note(t: Touch, ext: Ext)
      requires Sound(ext)
      requires t.GetValue? || t.GetCode?
      modifies this`touches, this`book
      ensures Sound(ext) && Unmarked() && touches == old(touches) + [t]
    {
      hide Consistent, Tracks;
      InertSegment(ext.remote, ext.View(), t);
      Append([t], ext, ext.View());
    }

    /** Read an account through the cache. */
    method LoadAccount(a: Address, ext: Ext) returns (acc: Account)
      requires Sound(ext)
      modifies this`touches, this`book, ext`accounts
      ensures Sound(ext) && Unmarked() && touches == old(touches)
      ensures ext.View() == State.Pull(ext.remote, old(ext.View()), a) && a in ext.accounts
      ensures old(ext.accounts).Keys <= ext.accounts.Keys
      ensures acc == AccountOf(ext.remote, old(ext.View()), a) == ext.accounts[a]
    {
      hide Consistent, Tracks;
      ghost var w := ext.View();
      acc := ext.Load(a);
      PullSegment(ext.remote, w, a);
      Append([], ext, w);
    }

    /** The second half of SLOAD: fetch the slot it has just warmed and record the read. */
    method TakeSlot(k: Slot, isWarm: bool, ext: Ext, ghost w: World)
      requires Booked() && Consistent(ext.remote, w, book)
      requires ext.View() == WarmSlot(w, k) && isWarm == (k in w.warmSlots)
      modifies this`touches, this`book, ext
      ensures Sound(ext) && Unmarked()
      ensures touches == old(touches) + [GetState(k, Read(ext.remote.storage, w.cache, k), isWarm)]
      ensures ext.View() == State.Pull(ext.remote, Loaded(ext.remote, w, k), k.addr)
    {
      hide Consistent, Tracks, Join, Loaded, State.Pull, Fetch, Read;
      PullAfterFetch(ext.remote, w, k);
      var val := ext.Get(k);
      var t := GetState(k, val, isWarm);
      touches := touches + [t];
      SloadSegment(ext.remote, w, k, val);
      ThenPull(ext.remote, w, [t], Loaded(ext.remote, w, k), CLEAN, k.addr);
      FetchBook(ext.remote, w, book, [t], ext.View(), CLEAN, k);
      JoinClean(book.marks);
      book := Extended(book, [t], CLEAN);
    }

    /** The end of an SSTORE that runs out of gas: its slot is fetched, nothing is recorded. */
    ghost method LeakSlot(k: Slot, ext: Ext, w: World)
      requires Booked() && Consistent(ext.remote, w, book) && SSTORE in book.ran
      requires ext.View() == State.Pull(ext.remote, Loaded(ext.remote, w, k), k.addr)
      modifies this`book
      ensures Sound(ext) && Kept() && book.marks == Join(old(book).marks, LeakMarks(w, k))
    {
      hide Consistent, Tracks, Join, Loaded, State.Pull, Fetch;
      var g := LeakMarks(w, k);
      PullAfterFetch(ext.remote, w, k);
      LeakSegment(ext.remote, w, k, Loaded(ext.remote, w, k));
      ThenPull(ext.remote, w, [], Loaded(ext.remote, w, k), g, k.addr);
      FetchBook(ext.remote, w, book, [], ext.View(), g, k);
      book := Extended(book, [], g);
    }

    /** The end of an SSTORE that can pay: write, count the refund, record the replaced value. */
    method PutSlot(t: Touch, original: Word, ext: Ext, ghost w: World)
      requires Booked() && Consistent(ext.remote, w, book) && !book.isStatic
      requires t.SetState? && t.isWarm == (t.slot in w.warmSlots) && t.val == Read(ext.remote.storage, w.cache, t.slot)
      requires ext.View() == State.Pull(ext.remote, Loaded(ext.remote, w, t.slot), t.slot.addr)
      requires t.slot in ext.original && ext.original[t.slot] == original
      modifies this`touches, this`book, this`gas, ext`state
      ensures touches == old(touches) + [t]
      ensures ext.View() == State.Pull(ext.remote, Stored(ext.remote, w, t.slot, t.next), t.slot.addr)
      ensures Sound(ext) && Unmarked() && gas == old(gas).(refund := old(gas).refund + Refund(original, t.val, t.next))
    {
      hide Consistent, Tracks, Join, Loaded, Stored, State.Pull, Fetch, Refund, ResetRefund;
      var k := t.slot;
      PullAfterFetch(ext.remote, w, k);
      PullAfterStore(ext.remote, w, k, t.next);
      ext.Put(k, t.next);
      gas := gas.(refund := gas.refund + Refund(original, t.val, t.next));
      touches := touches + [t];
      SstoreSegment(ext.remote, w, k, t.next);
      ThenPull(ext.remote, w, [t], Stored(ext.remote, w, k, t.next), CLEAN, k.addr);
      StoreBook(ext.remote, w, book, t, ext.View());
      JoinClean(book.marks);
      book := StoredBook(book, t, original);
    }

    /** Move value to another account, debit recorded first. */
    method Pay(a: Address, b: Address, v: Word, ext: Ext)
      requires Sound(ext) && a != b && a in ext.accounts && b in ext.accounts && v <= ext.accounts[a].value
      modifies this`touches, this`book, ext`accounts
      ensures Sound(ext) && Unmarked()
      ensures touches == old(touches) + [SetValue(a, old(ext.accounts[a].value), old(ext.accounts[a].value) - v),
                                         SetValue(b, old(ext.accounts[b].value), old(ext.accounts[b].value) + v)]
      ensures ext.View() == Transferred(ext.remote, old(ext.View()), a, b, v)
    {
      hide Consistent, Tracks;
      ghost var w := ext.View();
      var src, dst := ext.accounts[a], ext.accounts[b];
      ext.accounts := ext.accounts[a := src.(value := src.value - v)];
      ext.accounts := ext.accounts[b := dst.(value := dst.value + v)];
      TransferSegment(ext.remote, w, a, b, v);
      Append([SetValue(a, src.value, src.value - v), SetValue(b, dst.value, dst.value + v)], ext, w);
    }

    /** A creator's nonce goes up before the created address is derived. */
    method BumpNonce(a: Address, ext: Ext)
      requires Sound(ext) && a in ext.accounts && (CREATE in book.ran || CREATE2 in book.ran)
      modifies this`touches, this`book, ext`accounts
      ensures Sound(ext) && Kept() && book.marks == Join(old(book).marks, CLEAN.(nonces := {a}))
      ensures var n := old(ext.accounts[a].nonce);
              && touches == old(touches) + [SetNonce(a, n, n + 1)]
              && ext.accounts == old(ext.accounts)[a := old(ext.accounts[a]).(nonce := n + 1)]
    {
      hide Consistent, Tracks;
      ghost var w := ext.View();
      var n := ext.accounts[a].nonce;
      ext.accounts := ext.accounts[a := ext.accounts[a].(nonce := n + 1)];
      NonceSegment(ext.remote, w, a);
      Record([SetNonce(a, n, n + 1)], ext, w, CLEAN.(nonces := {a}));
    }

    /** Enter the created account as empty unless it is already cached. */
    method Enter(a: Address, ext: Ext)
      requires Sound(ext) && (CREATE in book.ran || CREATE2 in book.ran)
      modifies this`touches, this`book, ext`accounts
      ensures Sound(ext) && Kept() && touches == old(touches) && ext.View() == Entered(old(ext.View()), a)
      ensures book.marks == Join(old(book).marks, EnterMarks(ext.remote, old(ext.View()), a))
    {
      hide Consistent, Tracks;
      ghost var w := ext.View();
      if a !in ext.accounts {
        ext.accounts := ext.accounts[a := Account(0, 0, [])];
      }
      EnterSegment(ext.remote, w, a);
      Record([], ext, w, EnterMarks(ext.remote, w, a));
    }

    /** A creation succeeded: code and nonce are set, the endowment moves, and CREATE's own entries go
        into the journal before the child's. */
    method Deploy(inner: Evm, ext: Ext, n: Creation)
      requires this != inner && Booked() && Nested(ext.remote, book, inner.book)
      requires inner.Sound(ext) && inner.prelude == []
      requires BothCached(ext.View(), n) && (CREATE in book.ran || CREATE2 in book.ran)
      modifies this`touches, this`gas, this`book, ext`accounts
      ensures Sound(ext) && Carried() && gas == old(gas).(refund := old(gas).refund + inner.gas.refund)
      ensures book == Committed(ext.remote, old(book), inner.book, old(ext.View()), n)
      ensures book.ran == old(book).ran + inner.book.ran
      ensures book.marks == Join(old(book).marks,
                Join(inner.book.marks, CommitMarks(ext.remote, inner.book.start, old(ext.View()), n)))
      ensures ext.View() == Installed(old(ext.View()), n)
      ensures touches == old(touches) + (InstallEntries(old(ext.View()), n) + inner.touches)
    {
      hide Consistent, Nested, Join, Installed, InstallEntries, CommitMarks;
      ghost var w := ext.View();
      CommitBook(ext.remote, w, book, inner.book, n);
      var own := ext.Install(n);
      gas := gas.(refund := gas.refund + inner.gas.refund);
      touches := touches + own + inner.touches;
      book := Committed(ext.remote, book, inner.book, w, n);
    }

    /** Give one account's whole balance to another, unrecorded, as SELFDESTRUCT does. */
    method Drain(a: Address, b: Address, ext: Ext)
      requires Sound(ext) && a in ext.accounts && b in ext.accounts && SELFDESTRUCT in book.ran
      modifies this`touches, this`book, ext`accounts
      ensures Sound(ext) && Kept() && touches == old(touches)
      ensures book.marks == Join(old(book).marks, DrainMarks(ext.remote, old(ext.View()), a, b))
      ensures ext.View() == Drained(ext.remote, old(ext.View()), a, b)
    {
      hide Consistent, Tracks;
      ghost var w := ext.View();
      var amount := ext.accounts[a].value;
      ext.accounts := ext.accounts[a := ext.accounts[a].(value := 0)];
      ext.accounts := ext.accounts[b := ext.accounts[b].(value := ext.accounts[b].value + amount)];
      DrainSegment(ext.remote, w, a, b);
      Record([], ext, w, DrainMarks(ext.remote, w, a, b));
    }

    /** A child frame succeeded: its journal and refunds become this frame's. */
    method Absorb(inner: Evm, ext: Ext)
      requires this != inner && Booked() && Nested(ext.remote, book, inner.book)
      requires inner.Sound(ext) && inner.prelude == []
      modifies this`touches, this`gas, this`book
      ensures Sound(ext) && Carried() && book == Absorbed(old(book), inner.book)
      ensures book.ran == old(book).ran + inner.book.ran
      ensures book.marks == Join(old(book).marks, inner.book.marks)
      ensures gas == old(gas).(refund := old(gas).refund + inner.gas.refund) && touches == old(touches) + inner.touches
    {
      hide Consistent, Nested, Join;
      AbsorbBook(ext.remote, ext.View(), book, inner.book);
      gas := gas.(refund := gas.refund + inner.gas.refund);
      touches := touches + inner.touches;
      book := Absorbed(book, inner.book);
    }

    /** A child frame failed: it is undone, and its surviving touches go into this frame's journal. */
    method Discard(inner: Evm, ext: Ext)
      requires this != inner && Booked() && Nested(ext.remote, book, inner.book)
      requires inner.Sound(ext) && inner.prelude == []
      modifies this`touches, this`book, ext
      ensures Sound(ext) && Carried() && book == Discarded(ext.remote, old(book), inner.book)
      ensures book.ran == old(book).ran + inner.book.ran
      ensures book.marks == Join(old(book).marks,
                Leftover(ext.remote, inner.book.start, inner.book.log, inner.book.marks))
      ensures IsUndo(ext.remote, old(ext.View()), inner.touches, ext.View())
      ensures Restored(ext.remote, inner.book, ext.View()) && SameStorage(ext.remote, inner.book.start, ext.View())
      ensures touches == old(touches) + Survivors(inner.touches)
    {
      hide Consistent, Nested, Join, Restored, Tracks;
      ghost var w := ext.View();
      ConsistentUndo(ext.remote, w, inner.book);
      inner.Revert(ext);
      assert inner.touches == inner.book.log;
      UndoRestores(ext.remote, w, inner.book, ext.View());
      DiscardBook(ext.remote, w, book, inner.book, ext.View());
      touches := touches + Survivors(inner.touches);
      book := Discarded(ext.remote, book, inner.book);
    }

    /** `revert`: replay the journal backwards. */
    method Revert(ext: Ext)
      requires UndoDefined(touches, ext.View())
      modifies ext
      ensures IsUndo(ext.remote, old(ext.View()), touches, ext.View())
    {
      ghost var w := ext.View();
      var i := |touches|;
      assert touches[i..] == [];
      while i > 0
        invariant 0 <= i <= |touches|
        invariant IsUndo(ext.remote, w, touches[i..], ext.View())
      {
        i := i - 1;
        ghost var x := ext.View();
        var t := touches[i];
        assert t in touches;
        UndoOneMore(ext.remote, w, touches[i + 1..], x, t);
        assert [t] + touches[i + 1..] == touches[i..];
        match t {
          case SetState(k, v, _, isWarm) =>
            ext.state := ext.state[k := v];
            if !isWarm { ext.accessedStorage := ext.accessedStorage - {k}; }
          case SetTransientState(k, v, _) =>
            ext.transient := ext.transient[k := v];
          case GetState(k, _, isWarm) =>
            if !isWarm { ext.accessedStorage := ext.accessedStorage - {k}; }
          case SetNonce(a, v, _) =>
            ext.accounts := ext.accounts[a := ext.accounts[a].(nonce := v)];
          case SetValue(a, v, _) =>
            ext.accounts := ext.accounts[a := ext.accounts[a].(value := v)];
          case Create(a, _, _, _) =>
            ext.accounts := ext.accounts[a := ext.accounts[a].(code := [])];
            ext.accounts := ext.accounts[a := ext.accounts[a].(nonce := 0)];
            ext.accounts := ext.accounts[a := ext.accounts[a].(value := 0)];
          case WarmUp(a) =>
            ext.accessedAddresses := ext.accessedAddresses - {a};
          case _ =>
        }
        assert ext.View() == UndoOne(ext.remote, x, t);
      }
      assert touches[0..] == touches;
    }
  }
}
