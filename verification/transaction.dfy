/** One call transaction: the upfront payment, the outermost frame, and the settlement (`execute` of
    src/executor.rs), and the nonce repair around it (`Runner::apply` of src/solenoid.rs). */
module Transaction {
  import opened Types
  import opened Opcodes
  import opened State
  import opened Supply
  import opened Journal
  import opened Segments
  import opened Limits
  import opened GasRules
  import opened Metering
  import opened Ledger
  import opened Machine
  import opened Decoder
  import opened Semantics
  import opened Runs
  import opened Steps
  import opened Interpreter

  datatype Header = Header(miner: Address, baseFee: Word)

  datatype AccessItem = AccessItem(address: Address, keys: seq<Word>)

  datatype TxContext = TxContext(gasPrice: Word, maxFee: Word, maxPriorityFee: Word, accessList: seq<AccessItem>)

  /** `Settled` carries the gas billed.  `Underflow` is the panic of the prepayment-minus-fee subtraction;
      `Crashed` is a panic inside the run. */
  datatype TxResult = Settled(gas: int) | Underflow | Crashed

  function SatSub(a: Word, b: Word): Word {
    if a < b then 0 else a - b
  }

  // ----- intrinsic gas ------------------------------------------------------------------

  function NonZero(data: seq<Byte>): (n: nat)
    ensures n <= |data|
  {
    if data == [] then 0 else NonZero(data[..|data| - 1]) + if data[|data| - 1] == 0 then 0 else 1
  }

  /** Calldata tokens of EIP-7623: one per zero byte, four per non-zero byte. */
  function Tokens(data: seq<Byte>): nat {
    |data| - NonZero(data) + 4 * NonZero(data)
  }

  function DataCost(data: seq<Byte>): nat {
    16 * NonZero(data) + 4 * (|data| - NonZero(data))
  }

  function AccessListPrice(list: seq<AccessItem>): nat {
    if list == [] then 0
    else AccessListPrice(list[..|list| - 1]) + 2400 + 1900 * |list[|list| - 1].keys|
  }

  function Intrinsic(call: Call, tx: TxContext): nat {
    21_000 + DataCost(call.data) + AccessListPrice(tx.accessList)
  }

  /** What the bill adds to the gas the frame used; a creation pays for its code as well. */
  function GasCosts(call: Call, tx: TxContext, retLen: nat): nat {
    Intrinsic(call, tx) + if call.to != 0 then 0 else 32_000 + 2 * CeilDiv(|call.data|, 32) + 200 * retLen
  }

  function GasFloor(call: Call): nat {
    21_000 + 10 * Tokens(call.data)
  }

  /** EIP-1559: the fee cap, or base fee plus priority fee if that is lower; legacy: the gas price. */
  function EffectivePrice(tx: TxContext, baseFee: Word): Word {
    if tx.maxPriorityFee == 0 then tx.gasPrice else Min(tx.maxFee, baseFee + tx.maxPriorityFee)
  }

  /** One per byte that is not zero. */
  lemma {:induction false} NonZeroCounts(data: seq<Byte>)
    ensures NonZero(data) == |set i | 0 <= i < |data| && data[i] != 0|
  {
    var all := set i | 0 <= i < |data| && data[i] != 0;
    if data != [] {
      var front := data[..|data| - 1];
      NonZeroCounts(front);
      var less := set i | 0 <= i < |front| && front[i] != 0;
      assert all == if data[|data| - 1] == 0 then less else less + {|data| - 1};
    }
  }

  function Keys(list: seq<AccessItem>): nat {
    if list == [] then 0 else Keys(list[..|list| - 1]) + |list[|list| - 1].keys|
  }

  /** 2400 per address and 1900 per key. */
  lemma {:induction false} AccessListPriceIs(list: seq<AccessItem>)
    ensures AccessListPrice(list) == 2400 * |list| + 1900 * Keys(list)
  {
    if list != [] {
      AccessListPriceIs(list[..|list| - 1]);
    }
  }

  /** The price lies under the fee cap; it is the cap exactly when base fee and priority fee together reach it; and what
      it leaves above the base fee is the smaller of priority fee and headroom. */
  lemma EffectivePriceIs(tx: TxContext, baseFee: Word)
    ensures tx.maxPriorityFee == 0 ==> EffectivePrice(tx, baseFee) == tx.gasPrice
    ensures tx.maxPriorityFee != 0 ==>
      var price := EffectivePrice(tx, baseFee);
      && price <= tx.maxFee && price <= baseFee + tx.maxPriorityFee
      && (price == tx.maxFee <==> tx.maxFee <= baseFee + tx.maxPriorityFee)
      && (price == baseFee + tx.maxPriorityFee <==> baseFee + tx.maxPriorityFee <= tx.maxFee)
      && (price >= baseFee <==> tx.maxFee >= baseFee)
      && SatSub(price, baseFee) == Min(tx.maxPriorityFee, SatSub(tx.maxFee, baseFee))
  {
  }

  method AccessListCost(list: seq<AccessItem>) returns (cost: nat)
    ensures cost == AccessListPrice(list) == 2400 * |list| + 1900 * Keys(list)
  {
    AccessListPriceIs(list);
    cost := 0;
    for i := 0 to |list|
      invariant cost == AccessListPrice(list[..i])
    {
      assert list[..i + 1][..i] == list[..i];
      cost := cost + 2400;
      cost := cost + 1900 * |list[i].keys|;
    }
    assert list[..|list|] == list;
  }

  // ----- before the run -----------------------------------------------------------------

  /** Nothing but warmth and caching differs. */
  ghost predicate Quiet(r: Remote, w: World, w': World) {
    && w'.cache == w.cache && w'.transient == w.transient
    && w.accounts.Keys <= w'.accounts.Keys
    && (forall a :: AccountOf(r, w', a) == AccountOf(r, w, a))
  }

  /** Entries that undo without touching any cell. */
  ghost predicate Inert(j: seq<Touch>) {
    forall t :: t in j ==> t.WarmUp? || t.GetCode?
  }

  method WarmUnbooked(evm: Evm, ext: Ext, a: Address)
    requires Inert(evm.touches)
    modifies evm`touches, ext`accessedAddresses
    ensures Inert(evm.touches) && Quiet(ext.remote, old(ext.View()), ext.View())
    ensures ext.accessedAddresses == old(ext.accessedAddresses) + {a}
  {
    var wasCold := ext.WarmAddress(a);
    if wasCold {
      evm.touches := evm.touches + [WarmUp(a)];
    }
  }

  function WarmAtStart(r: Remote, w: World, call: Call, coinbase: Address): set<Address> {
    var code := AccountOf(r, w, call.to).code;
    {call.from} + (if call.to == 0 then {} else {call.to}) + (if coinbase == 0 then {} else {coinbase})
    + if call.to != 0 && IsDelegation(code) then {BigEndian(code[3..])} else {}
  }

  /** Everything on the access list is warm. */
  ghost predicate Listed(w: World, list: seq<AccessItem>) {
    && (forall i :: 0 <= i < |list| ==> list[i].address in w.warmAddresses)
    && (forall i, j :: 0 <= i < |list| && 0 <= j < |list[i].keys| ==>
          Slot(list[i].address, list[i].keys[j]) in w.warmSlots)
  }

  /** Sender, target, a delegation's target and the coinbase are warm from the start. */
  method Prewarm(evm: Evm, ext: Ext, call: Call, coinbase: Address)
    requires Inert(evm.touches)
    modifies evm`touches, ext`accessedAddresses, ext`accounts
    ensures Inert(evm.touches) && Quiet(ext.remote, old(ext.View()), ext.View())
    ensures WarmAtStart(ext.remote, old(ext.View()), call, coinbase) <= ext.accessedAddresses
  {
    hide BigEndian;
    WarmUnbooked(evm, ext, call.from);
    if call.to != 0 {
      WarmUnbooked(evm, ext, call.to);
      var acc := ext.Load(call.to);
      evm.touches := evm.touches + [GetCode(call.to, acc.code)];
      if IsDelegation(acc.code) {
        WarmUnbooked(evm, ext, BigEndian(acc.code[3..]));
      }
    }
    if coinbase != 0 {
      WarmUnbooked(evm, ext, coinbase);
    }
  }

  method ApplyAccessList(ext: Ext, list: seq<AccessItem>)
    modifies ext`accessedAddresses, ext`accessedStorage
    ensures ext.accessedAddresses == old(ext.accessedAddresses) + set i | 0 <= i < |list| :: list[i].address
    ensures ext.accessedStorage == old(ext.accessedStorage)
              + set i, j | 0 <= i < |list| && 0 <= j < |list[i].keys| :: Slot(list[i].address, list[i].keys[j])
  {
    for i := 0 to |list|
      invariant ext.accessedAddresses == old(ext.accessedAddresses) + set k | 0 <= k < i :: list[k].address
      invariant ext.accessedStorage == old(ext.accessedStorage)
                  + set k, j | 0 <= k < i && 0 <= j < |list[k].keys| :: Slot(list[k].address, list[k].keys[j])
    {
      var item := list[i];
      ext.accessedAddresses := ext.accessedAddresses + {item.address};
      ghost var before := ext.accessedStorage;
      for n := 0 to |item.keys|
        invariant ext.accessedStorage == before + set j | 0 <= j < n :: Slot(item.address, item.keys[j])
        invariant ext.accessedAddresses == old(ext.accessedAddresses) + set k | 0 <= k < i + 1 :: list[k].address
      {
        ext.accessedStorage := ext.accessedStorage + {Slot(item.address, item.keys[n])};
      }
    }
  }

  /** The world once the gas is paid for in advance, as far as the sender can. */
  function Prepaid(r: Remote, w: World, from: Address, amount: Word): World {
    WithBalance(r, w, from, SatSub(BalanceOf(r, w, from), amount))
  }

  /** The world the outermost frame starts from: value moved as far as the sender has it, nonce up. */
  function Opened(r: Remote, w: World, call: Call): World {
    var src, dst := BalanceOf(r, w, call.from), BalanceOf(r, w, call.to);
    var x := if call.value == 0 || call.to == 0 then w
             else
               var y := WithBalance(r, w, call.from, SatSub(src, call.value));
               WithBalance(r, y, call.to, BalanceOf(r, y, call.to) + call.value);
    WithNonce(r, x, call.from, NonceOf(r, x, call.from) + 1)
  }

  function OpeningEntries(r: Remote, w: World, call: Call): seq<Touch> {
    var src, dst, n := BalanceOf(r, w, call.from), BalanceOf(r, w, call.to), NonceOf(r, w, call.from);
    (if call.value == 0 || call.to == 0 then []
     else [SetValue(call.from, src, SatSub(src, call.value)), SetValue(call.to, dst, dst + call.value)])
    + [SetNonce(call.from, n, n + 1)]
  }

  lemma OpenedReads(r: Remote, w: World, call: Call, c: Cell)
    requires c != Nonce(call.from)
    requires call.value == 0 || call.to == 0 || (c != Balance(call.from) && c != Balance(call.to))
    ensures Peek(r, Opened(r, w, call), c) == Peek(r, w, c)
  {
  }

  lemma BackThree(s: Touch, t: Touch, u: Touch, c: Cell, v: Value)
    ensures Back([s, t] + [u], c, v) == Undone(s, c, Undone(t, c, Undone(u, c, v)))
  {
    BackConcat([s, t], [u], c, v);
    BackOne(u, c, v);
    assert [s, t] == [s] + [t];
    BackConcat([s], [t], c, Undone(u, c, v));
    BackOne(t, c, Undone(u, c, v));
    BackOne(s, c, Undone(t, c, Undone(u, c, v)));
  }

  lemma OpeningEntriesRewind(r: Remote, w: World, call: Call, c: Cell)
    ensures Back(OpeningEntries(r, w, call), c, Peek(r, Opened(r, w, call), c)) == Peek(r, w, c)
  {
    hide Back, Opened;
    var v := Peek(r, Opened(r, w, call), c);
    var src, dst, n := BalanceOf(r, w, call.from), BalanceOf(r, w, call.to), NonceOf(r, w, call.from);
    var last := SetNonce(call.from, n, n + 1);
    if call.value == 0 || call.to == 0 {
      BackOne(last, c, v);
      assert OpeningEntries(r, w, call) == [last];
      if c != Nonce(call.from) { OpenedReads(r, w, call, c); }
    } else {
      BackThree(SetValue(call.from, src, SatSub(src, call.value)), SetValue(call.to, dst, dst + call.value),
                last, c, v);
      if c != Nonce(call.from) && c != Balance(call.from) && c != Balance(call.to) { OpenedReads(r, w, call, c); }
    }
  }

  /** Undoing the opening entries leads back to the world before them. */
  lemma OpeningRewinds(r: Remote, w: World, call: Call, inert: seq<Touch>, c: Cell)
    requires Inert(inert)
    ensures Back(inert + OpeningEntries(r, w, call), c, Peek(r, Opened(r, w, call), c)) == Peek(r, w, c)
  {
    hide Opened, OpeningEntries;
    BackConcat(inert, OpeningEntries(r, w, call), c, Peek(r, Opened(r, w, call), c));
    OpeningEntriesRewind(r, w, call, c);
    BackFixed(inert, c, Peek(r, w, c));
  }

  /** The shortfall that saturating subtraction forgives. */
  function Shortfall(have: Word, need: Word): nat {
    if have < need then need - have else 0
  }

  lemma PrepaidDrift(r: Remote, w: World, from: Address, amount: Word)
    requires from in w.accounts
    ensures Drift(r, Prepaid(r, w, from, amount)) == Drift(r, w) - amount + Shortfall(BalanceOf(r, w, from), amount)
  {
    DriftShift(r, w, Prepaid(r, w, from, amount), from);
  }

  /** Value the opening creates out of nothing: what the sender did not have. */
  function OpeningGap(r: Remote, w: World, call: Call): nat {
    if call.value == 0 || call.to == 0 then 0 else Shortfall(BalanceOf(r, w, call.from), call.value)
  }

  lemma OpenedDrift(r: Remote, w: World, call: Call)
    requires call.from in w.accounts && call.to in w.accounts
    ensures Drift(r, Opened(r, w, call)) == Drift(r, w) + OpeningGap(r, w, call)
    ensures Opened(r, w, call).accounts.Keys == w.accounts.Keys
  {
    var x := w;
    if call.value != 0 && call.to != 0 {
      var y := WithBalance(r, w, call.from, SatSub(BalanceOf(r, w, call.from), call.value));
      x := WithBalance(r, y, call.to, BalanceOf(r, y, call.to) + call.value);
      DriftShift(r, w, y, call.from);
      DriftShift(r, y, x, call.to);
    }
    DriftKept(r, x, Opened(r, w, call));
  }

  /** Deduct the gas payment in advance. */
  method Prepay(ext: Ext, from: Address, amount: Word) returns (before: Word)
    modifies ext`accounts
    ensures ext.View() == Prepaid(ext.remote, Pull(ext.remote, old(ext.View()), from), from, amount)
    ensures before == BalanceOf(ext.remote, old(ext.View()), from)
  {
    var acc := ext.Load(from);
    ghost var pulled := ext.accounts;
    before := acc.value;
    if amount != 0 {
      ext.accounts := ext.accounts[from := acc.(value := SatSub(before, amount))];
    }
    assert ext.accounts == pulled[from := acc.(value := SatSub(before, amount))];
  }

  /** Sender and target are cached before value moves. */
  function Cached(r: Remote, w: World, call: Call): World {
    Pull(r, Pull(r, w, call.from), call.to)
  }

  /** Move the value as far as the sender has it and count the nonce. */
  method MoveValue(ext: Ext, call: Call) returns (entries: seq<Touch>)
    modifies ext`accounts
    ensures ext.View() == Opened(ext.remote, Cached(ext.remote, old(ext.View()), call), call)
    ensures entries == OpeningEntries(ext.remote, Cached(ext.remote, old(ext.View()), call), call)
  {
    ext.Pull(call.from);
    ext.Pull(call.to);
    var src, dst := ext.accounts[call.from].value, ext.accounts[call.to].value;
    entries := [];
    if call.value != 0 && call.to != 0 {
      var updated := SatSub(src, call.value);
      ext.accounts := ext.accounts[call.from := ext.accounts[call.from].(value := updated)];
      var target := ext.accounts[call.to];
      ext.accounts := ext.accounts[call.to := target.(value := target.value + call.value)];
      entries := [SetValue(call.from, src, updated), SetValue(call.to, dst, dst + call.value)];
    }
    var n := ext.accounts[call.from].nonce;
    ext.accounts := ext.accounts[call.from := ext.accounts[call.from].(nonce := n + 1)];
    entries := entries + [SetNonce(call.from, n, n + 1)];
  }

  /** Open the outermost frame. */
  method Open(evm: Evm, ext: Ext, call: Call, limit: nat)
    requires ext.original == map[] && evm.stack == 0 && evm.memory == 0 && evm.memCost == 0
    modifies evm`touches, evm`gas, evm`prelude, evm`book, ext`accounts
    ensures Ready(evm, ext) && evm.gas == Gas(limit, 0, 0)
    ensures evm.book == Book(old(ext.View()).cache, false, limit, 0, limit, ext.View(), [], CLEAN, 0, false, {})
    ensures ext.View() == Opened(ext.remote, Cached(ext.remote, old(ext.View()), call), call)
    ensures evm.prelude == old(evm.touches)
                           + OpeningEntries(ext.remote, Cached(ext.remote, old(ext.View()), call), call)
  {
    hide Consistent, Opened, OpeningEntries, Cached;
    evm.gas := Gas(limit, 0, 0);
    var entries := MoveValue(ext, call);
    evm.touches := evm.touches + entries;
    evm.prelude := evm.touches;
    evm.book := Book(ext.View().cache, false, limit, 0, limit, ext.View(), [], CLEAN, 0, false, {});
    OpenBook(ext.remote, evm.book);
  }

  // ----- after the run ------------------------------------------------------------------

  /** What a finished run says about totals, nonces and refunds. */
  lemma RunFacts(r: Remote, w: World, b: Book)
    requires Consistent(r, w, b)
    ensures b.start.accounts.Keys <= w.accounts.Keys
    ensures !b.marks.lost ==> Drift(r, w) == Drift(r, b.start)
    ensures NoncesKept(r, b.start, w, b.marks.nonces + b.marks.collided)
    ensures Originals(r.storage, b.base, w.cache)
    ensures b.refund == ClearedRefund(r.storage, w.cache) - ClearedRefund(r.storage, b.start.cache)
                        + Resets(r.storage, b.base, b.log)
    ensures (b.limited ==> b.top >= DEPTH_SAFE_GAS) && Caused(b.marks, b.ran)
  {
  }

  /** Without recorded originals nothing has been cleared. */
  lemma NothingCleared(base: Slot -> Word, c: Cache)
    requires c.original == map[]
    ensures ClearedRefund(base, c) == 0
  {
    assert Cleared(base, c) == {};
  }

  lemma TransactionUndo(r: Remote, w: World, call: Call, inert: seq<Touch>, b: Book, end: World, w': World)
    requires Inert(inert) && Consistent(r, end, b) && b.start == Opened(r, w, call)
    requires IsUndo(r, end, inert + OpeningEntries(r, w, call) + b.log, w')
    ensures forall c :: Claimed(b.marks, c) ==> Peek(r, w', c) == Peek(r, w, c)
  {
    var prelude := inert + OpeningEntries(r, w, call);
    forall c | Claimed(b.marks, c) ensures Peek(r, w', c) == Peek(r, w, c) {
      hide Opened, OpeningEntries, Back;
      BackConcat(prelude, b.log, c, Peek(r, end, c));
      OpeningRewinds(r, w, call, inert, c);
    }
  }

  /** A failed transaction: the whole journal is undone, the opening included. */
  method Unwind(evm: Evm, ext: Ext, call: Call, ghost w: World, ghost inert: seq<Touch>)
    requires evm.Sound(ext) && Inert(inert)
    requires call.from in w.accounts && call.to in w.accounts
    requires evm.book.start == Opened(ext.remote, w, call)
    requires evm.prelude == inert + OpeningEntries(ext.remote, w, call)
    modifies ext
    ensures forall c :: Claimed(evm.book.marks, c) ==> Peek(ext.remote, ext.View(), c) == Peek(ext.remote, w, c)
    ensures ext.accounts.Keys == old(ext.accounts).Keys && ext.original == old(ext.original)
  {
    hide Opened, OpeningEntries, Consistent;
    ghost var end := ext.View();
    ConsistentUndo(ext.remote, end, evm.book);
    RunFacts(ext.remote, end, evm.book);
    OpeningDefined(ext.remote, w, call);
    evm.Revert(ext);
    TransactionUndo(ext.remote, w, call, inert, evm.book, end, ext.View());
  }

  lemma OpeningDefined(r: Remote, w: World, call: Call)
    requires call.from in w.accounts && call.to in w.accounts
    ensures UndoDefined(OpeningEntries(r, w, call), Opened(r, w, call))
    ensures Opened(r, w, call).accounts.Keys == w.accounts.Keys
  {
  }

  /** The world after settlement: unused gas back to the sender, the tip to the coinbase. */
  function SettledWorld(r: Remote, w: World, from: Address, coinbase: Address, unused: Word, tip: Word): World {
    var x := WithBalance(r, w, from, BalanceOf(r, w, from) + unused);
    if coinbase == 0 then x else WithBalance(r, x, coinbase, BalanceOf(r, x, coinbase) + tip)
  }

  lemma SettledDrift(r: Remote, w: World, from: Address, coinbase: Address, unused: Word, tip: Word)
    ensures var w' := SettledWorld(r, w, from, coinbase, unused, tip);
            && from in w'.accounts
            && Drift(r, w') == Drift(r, w) + unused + (if coinbase == 0 then 0 else tip)
            && (forall c: Cell :: !c.Balance? ==> Peek(r, w', c) == Peek(r, w, c))
            && (forall a :: BalanceOf(r, w', a) == BalanceOf(r, w, a) + (if a == from then unused else 0)
                                                   + (if a == coinbase != 0 then tip else 0))
            && w'.cache == w.cache && w'.transient == w.transient
  {
    var x := WithBalance(r, w, from, BalanceOf(r, w, from) + unused);
    DriftShift(r, w, x, from);
    if coinbase != 0 {
      DriftShift(r, x, SettledWorld(r, w, from, coinbase, unused, tip), coinbase);
    }
  }

  /** Refund the sender, tip the coinbase; fee payments are reported, never undone. */
  method Settle(evm: Evm, ext: Ext, from: Address, coinbase: Address, before: Word, unused: Word, tip: Word)
    requires from in ext.accounts
    modifies evm`touches, ext`accounts
    ensures ext.View() == SettledWorld(ext.remote, old(ext.View()), from, coinbase, unused, tip)
    ensures evm.touches == old(evm.touches)
              + [FeePay(from, before, BalanceOf(ext.remote, old(ext.View()), from) + unused)]
              + (if coinbase == 0 then []
                 else var had := BalanceOf(ext.remote, WithBalance(ext.remote, old(ext.View()), from,
                                           BalanceOf(ext.remote, old(ext.View()), from) + unused), coinbase);
                      [FeePay(coinbase, had, had + tip)])
  {
    var src := ext.accounts[from];
    if unused != 0 {
      ext.accounts := ext.accounts[from := src.(value := src.value + unused)];
    }
    assert ext.accounts == old(ext.accounts)[from := src.(value := src.value + unused)];
    evm.touches := evm.touches + [FeePay(from, before, src.value + unused)];
    if coinbase != 0 {
      var dst := ext.Load(coinbase);
      if tip != 0 {
        ext.accounts := ext.accounts[coinbase := dst.(value := dst.value + tip)];
      }
      evm.touches := evm.touches + [FeePay(coinbase, dst.value, dst.value + tip)];
    }
  }

  // ----- the whole transaction ----------------------------------------------------------

  /** The world after the upfront payment: the sender is poorer, nothing else reads differently. */
  ghost predicate PaidUp(r: Remote, w: World, w': World, from: Address, amount: Word) {
    && w'.cache == w.cache && w'.transient == w.transient
    && (forall a :: a != from ==> AccountOf(r, w', a) == AccountOf(r, w, a))
    && AccountOf(r, w', from) == AccountOf(r, w, from).(value := SatSub(BalanceOf(r, w, from), amount))
    && Drift(r, w') == Drift(r, w) - amount + Shortfall(BalanceOf(r, w, from), amount)
  }

  /** Everything `execute` does before value moves. */
  method Begin(evm: Evm, ext: Ext, call: Call, coinbase: Address, tx: TxContext, prepayment: Word)
    returns (before: Word)
    requires Inert(evm.touches)
    modifies evm`touches, ext
    ensures Inert(evm.touches) && before == BalanceOf(ext.remote, old(ext.View()), call.from)
    ensures PaidUp(ext.remote, old(ext.View()), ext.View(), call.from, prepayment)
    ensures WarmAtStart(ext.remote, old(ext.View()), call, coinbase) <= ext.accessedAddresses
    ensures Listed(ext.View(), tx.accessList)
  {
    ghost var w := ext.View();
    Prewarm(evm, ext, call, coinbase);
    ghost var x := Pull(ext.remote, ext.View(), call.from);
    before := Prepay(ext, call.from, prepayment);
    DriftKept(ext.remote, w, x);
    PrepaidDrift(ext.remote, x, call.from, prepayment);
    ghost var y := ext.View();
    ApplyAccessList(ext, tx.accessList);
    DriftKept(ext.remote, y, ext.View());
  }

  /** The run, undone or not, left the total of all balances as the opening made it. */
  predicate TotalKept(g: Marks, reverted: bool) {
    if reverted then g.moved == {} else !g.lost
  }

  /** The run, undone or not, left this nonce to the transaction. */
  predicate NonceLeft(g: Marks, reverted: bool, a: Address) {
    a !in g.collided && (reverted || a !in g.nonces)
  }

  /** What the outermost frame leaves behind, undone or not, in a world opened from `w`. */
  ghost predicate TopRan(r: Remote, w: World, w': World, call: Call, evm: Evm)
    reads evm
  {
    var g := evm.book.marks;
    && call.from in w'.accounts
    && 0 <= evm.gas.used <= evm.gas.limit && evm.gas.refund >= 0
    && (TotalKept(g, evm.reverted) ==> Drift(r, w') == Drift(r, w) + if evm.reverted then 0 else OpeningGap(r, w, call))
    && (NonceLeft(g, evm.reverted, call.from) ==>
          NonceOf(r, w', call.from) == NonceOf(r, w, call.from) + if evm.reverted then 0 else 1)
    && Originals(r.storage, w.cache, w'.cache)
    && (!evm.reverted ==>
          evm.gas.refund == ClearedRefund(r.storage, w'.cache) + Resets(r.storage, w.cache, evm.book.log))
    && (evm.reverted ==> SameStorage(r, w, w') && forall c :: Claimed(g, c) ==> Peek(r, w', c) == Peek(r, w, c))
    && (evm.book.limited ==> evm.gas.limit >= DEPTH_SAFE_GAS) && Caused(g, evm.book.ran)
  }

  lemma CachedReads(r: Remote, w: World, call: Call)
    ensures var x := Cached(r, w, call);
            && x.cache == w.cache && call.from in x.accounts && call.to in x.accounts
            && (forall a :: AccountOf(r, x, a) == AccountOf(r, w, a))
            && Drift(r, x) == Drift(r, w) && OpeningGap(r, x, call) == OpeningGap(r, w, call)
  {
    DriftKept(r, w, Cached(r, w, call));
  }

  lemma CachedPeeks(r: Remote, w: World, call: Call)
    ensures forall c :: Peek(r, Cached(r, w, call), c) == Peek(r, w, c)
  {
  }

  lemma OpenedNonce(r: Remote, w: World, call: Call)
    ensures NonceOf(r, Opened(r, w, call), call.from) == NonceOf(r, w, call.from) + 1
    ensures Opened(r, w, call).cache == w.cache
  {
  }

  lemma SuccessRan(r: Remote, w: World, x: World, end: World, call: Call, evm: Evm)
    requires w.cache.original == map[] && x == Cached(r, w, call)
    requires evm.Booked() && Consistent(r, end, evm.book)
    requires evm.book.start == Opened(r, x, call) && evm.book.base == w.cache
    requires evm.book.top == evm.gas.limit && 0 <= evm.gas.used <= evm.gas.limit
    ensures evm.gas.refund >= 0 && Originals(r.storage, w.cache, end.cache)
    ensures (evm.book.limited ==> evm.gas.limit >= DEPTH_SAFE_GAS) && Caused(evm.book.marks, evm.book.ran)
    ensures call.from in end.accounts
    ensures !evm.reverted ==> TopRan(r, w, end, call, evm)
  {
    hide Consistent, Opened, Cached, Originals, ClearedRefund, OpeningGap, Caused, Resets;
    CachedReads(r, w, call);
    RunFacts(r, end, evm.book);
    OpenedDrift(r, x, call);
    OpenedNonce(r, x, call);
    NothingCleared(r.storage, x.cache);
    ClearedIsNat(r.storage, end.cache);
  }

  lemma ClearedIsNat(base: Slot -> Word, c: Cache)
    ensures ClearedRefund(base, c) >= 0
  {
  }

  lemma FailureRan(r: Remote, w: World, x: World, end: World, w': World, call: Call, evm: Evm)
    requires w.cache.original == map[] && x == Cached(r, w, call)
    requires evm.Booked() && Consistent(r, end, evm.book)
    requires evm.book.start == Opened(r, x, call) && evm.book.base == w.cache
    requires evm.book.top == evm.gas.limit && 0 <= evm.gas.used <= evm.gas.limit && evm.reverted
    requires forall c :: Claimed(evm.book.marks, c) ==> Peek(r, w', c) == Peek(r, x, c)
    requires w'.accounts.Keys == end.accounts.Keys && w'.cache.original == end.cache.original
    ensures TopRan(r, w, w', call, evm)
  {
    hide Consistent, Opened, Cached, ClearedRefund, Caused, Resets;
    SuccessRan(r, w, x, end, call, evm);
    CachedReads(r, w, call);
    CachedPeeks(r, w, call);
    AgreeOnAccounts(r, x, w', evm.book.marks);
    forall k ensures Read(r.storage, w.cache, k) == Read(r.storage, w'.cache, k) {
      assert Claimed(evm.book.marks, Storage(k));
      assert Peek(r, w', Storage(k)) == Peek(r, x, Storage(k));
    }
    if evm.book.marks.moved == {} {
      RunFacts(r, end, evm.book);
      OpenedDrift(r, x, call);
      DriftKept(r, x, w');
    }
  }

  /** Without code a run has no ticks: nothing is used and nothing fails. */
  lemma EmptyRun(remote: Remote, code: Bytecode, call: Call, ctx: Context, run: Trace)
    requires Decoded(code) && code.bytecode == [] && ctx.depth <= CALL_DEPTH_LIMIT
    requires Executes(remote, code, call, ctx, run)
    ensures run.last.gas == run.first.gas && run.last.reverted == run.first.reverted
  {
    NoBytesNoInstructions(code);
    hide Performs;
  }

  lemma NoBytesNoInstructions(b: Bytecode)
    requires Decoded(b) && b.bytecode == []
    ensures b.instructions == []
  {
  }

  /** The run of the outermost frame: opened with all the gas the intrinsic cost leaves, in the opened world, and
      executed to its end. */
  ghost predicate TopRun(remote: Remote, w: World, code: Bytecode, call: Call, limit: int, ctx: Context, run: Trace) {
    && ctx.depth == 1 && !ctx.isStatic && ctx.callType == Plain
    && run.first.gas == Gas(limit, 0, 0) && run.first.pc == 0 && run.first.ran == {}
    && run.first.world == Opened(remote, Cached(remote, w, call), call)
    && Executes(remote, code, call, ctx, run)
  }

  /** Open the outermost frame, run it, and undo it if it failed. */
  method RunTop(evm: Evm, ext: Ext, code: Bytecode, call: Call, limit: nat)
    returns (panicked: bool, ghost ctx: Context, ghost run: Trace)
    requires Decoded(code) && Inert(evm.touches) && ext.original == map[]
    requires evm.stack == 0 && evm.memory == 0 && evm.memCost == 0 && evm.pc == 0
    modifies evm, ext
    ensures !panicked ==> TopRan(ext.remote, old(ext.View()), ext.View(), call, evm) && evm.gas.limit == limit
    ensures !panicked ==> RanOnly(code.bytecode, evm.book.ran)
    ensures !panicked ==> TopRun(ext.remote, old(ext.View()), code, call, limit, ctx, run)
    ensures !panicked ==> evm.gas == run.last.gas && evm.reverted == run.last.reverted && evm.ret == run.last.ret
    ensures code.bytecode == [] && !old(evm.reverted) ==> !panicked && evm.gas == Gas(limit, 0, 0) && !evm.reverted
  {
    hide Consistent, Opened, OpeningEntries, Cached, TopRan, Decoded, Originals, Caused, RanOnly, OpeningGap, Drift,
         SameStorage, Executes;
    ghost var r, w, inert := ext.remote, ext.View(), evm.touches;
    ghost var x := Cached(r, w, call);
    Open(evm, ext, call, limit);
    if code.bytecode == [] && call.data == [] && call.to != 0 {
      evm.stopped, evm.reverted := true, false;
    }
    if code.bytecode == [] { NoBytesNoInstructions(code); }
    var created: Address :| created >= 0;
    CachedReads(r, w, call);
    ctx := Context(created, 1, Plain, false);
    ghost var first := evm.Now(ext);
    var crashed, ticks := ExecuteWithContext(evm, ext, code, call, Context(created, 1, Plain, false));
    run := Trace(first, ticks, evm.Now(ext));
    if crashed { return true, ctx, run; }
    if code.bytecode == [] { EmptyRun(r, code, call, ctx, run); }
    ghost var end := ext.View();
    SuccessRan(r, w, x, end, call, evm);
    if evm.reverted {
      Unwind(evm, ext, call, x, inert);
      FailureRan(r, w, x, end, ext.View(), call, evm);
    }
    return false, ctx, run;
  }

  /** The bill: at least four fifths of the gas and the calldata floor, at most the gas and the floor. */
  function Bill(used: Gas, reverted: bool, retLen: nat, call: Call, tx: TxContext): int {
    Max(used.Finalized(GasCosts(call, tx, retLen), reverted), GasFloor(call))
  }

  /** What is billed for `total` gas: all of it after a failure; otherwise the refund comes off, but at most a fifth;
      and never less than the floor. */
  predicate Billing(used: Gas, reverted: bool, total: int, floor: nat, bill: int) {
    && (reverted ==> bill == Max(total, floor))
    && (!reverted && 5 * used.refund <= total ==> bill == Max(total - used.refund, floor))
    && (!reverted && 5 * used.refund > total ==> bill == Max(total - total / 5, floor))
  }

  lemma BillIs(used: Gas, reverted: bool, retLen: nat, call: Call, tx: TxContext)
    requires used.used >= 0
    ensures Billing(used, reverted, used.used + GasCosts(call, tx, retLen), GasFloor(call),
                    Bill(used, reverted, retLen, call, tx))
  {
  }

  /** With the refund counter proved to be the cleared slots' share: each cleared slot saves 4800. */
  lemma BillingOfCleared(base: Slot -> Word, c: Cache, used: Gas, reverted: bool, total: int, floor: nat, bill: int)
    requires Billing(used, reverted, total, floor, bill)
    ensures !reverted && used.refund == ClearedRefund(base, c) && 24_000 * |Cleared(base, c)| <= total ==>
              bill == Max(total - 4800 * |Cleared(base, c)|, floor)
  {
  }

  /** What leaves circulation per unit of gas: the base fee, or everything when there is no coinbase. */
  function BurnPrice(header: Header, tx: TxContext): Word {
    var price := EffectivePrice(tx, header.baseFee);
    if header.miner == 0 then price else Min(price, header.baseFee)
  }

  /** Total balance created by letting a sender pay more than it has. */
  function Forgiven(r: Remote, w: World, call: Call, prepayment: Word, reverted: bool): nat {
    var have := BalanceOf(r, w, call.from);
    Shortfall(have, prepayment)
    + if reverted || call.value == 0 || call.to == 0 then 0 else Shortfall(SatSub(have, prepayment), call.value)
  }

  lemma SplitFee(gas: nat, price: Word, baseFee: Word)
    ensures gas * price - gas * SatSub(price, baseFee) == gas * Min(price, baseFee)
  {
  }

  lemma FeeFits(gas: nat, limit: nat, price: Word, gasPrice: Word)
    requires gas <= limit && price <= gasPrice
    ensures gas * price <= limit * gasPrice
  {
    assert gas * price <= limit * price;
    assert limit * price <= limit * gasPrice;
  }

  /** Split the prepayment: what goes back to the sender, and what the coinbase earns. */
  method Fees(final: nat, gas: nat, header: Header, tx: TxContext) returns (ok: bool, unused: Word, tip: Word)
    ensures ok <==> final * EffectivePrice(tx, header.baseFee) <= gas * tx.gasPrice
    ensures EffectivePrice(tx, header.baseFee) <= tx.gasPrice && final <= gas ==> ok
    ensures ok ==> unused == gas * tx.gasPrice - final * EffectivePrice(tx, header.baseFee)
    ensures ok ==> tip == final * SatSub(EffectivePrice(tx, header.baseFee), header.baseFee)
    ensures ok ==> unused + (if header.miner == 0 then 0 else tip) == gas * tx.gasPrice - final * BurnPrice(header, tx)
  {
    var prepayment := gas * tx.gasPrice;
    var price := EffectivePrice(tx, header.baseFee);
    var fee := final * price;
    if price <= tx.gasPrice && final <= gas { FeeFits(final, gas, price, tx.gasPrice); }
    if fee > prepayment { return false, 0, 0; }
    SplitFee(final, price, header.baseFee);
    ok, unused, tip := true, prepayment - fee, final * SatSub(price, header.baseFee);
  }

  /** Settlement pays the sender what is left of the prepayment and the coinbase its tip, and touches nothing
      else. */
  ghost predicate Billed(r: Remote, w: World, w': World, from: Address, gas: nat, header: Header, tx: TxContext,
                         bill: int) {
    var price := EffectivePrice(tx, header.baseFee);
    && Drift(r, w') == Drift(r, w) + gas * tx.gasPrice - bill * BurnPrice(header, tx)
    && (forall c: Cell :: !c.Balance? ==> Peek(r, w', c) == Peek(r, w, c))
    && (forall a :: BalanceOf(r, w', a) == BalanceOf(r, w, a)
                          + (if a == from then gas * tx.gasPrice - bill * price else 0)
                          + (if a == header.miner != 0 then bill * SatSub(price, header.baseFee) else 0))
    && w'.cache == w.cache && from in w'.accounts
  }

  /** Value over a whole transaction: exactly the base fee leaves circulation unless a mark says otherwise, and if
      the run reverted, nobody's balance moved but for the fee and the tip, unless it is marked. */
  ghost predicate ValueKept(r: Remote, w: World, w': World, call: Call, gas: nat, header: Header, tx: TxContext,
                            bill: int, reverted: bool, g: Marks) {
    var price, prepayment := EffectivePrice(tx, header.baseFee), gas * tx.gasPrice;
    && (TotalKept(g, reverted) ==>
          Drift(r, w') == Drift(r, w) - bill * BurnPrice(header, tx) + Forgiven(r, w, call, prepayment, reverted))
    && (reverted ==>
          forall a :: a !in g.moved ==>
            BalanceOf(r, w', a) == BalanceOf(r, w, a)
                        + (if a == call.from then Shortfall(BalanceOf(r, w, a), prepayment) - bill * price else 0)
                        + (if a == header.miner != 0 then bill * SatSub(price, header.baseFee) else 0))
  }

  lemma WholeValue(r: Remote, w: World, x: World, y: World, w': World, call: Call, gas: nat, header: Header,
                   tx: TxContext, bill: int, reverted: bool, g: Marks)
    requires PaidUp(r, w, x, call.from, gas * tx.gasPrice)
    requires TotalKept(g, reverted) ==> Drift(r, y) == Drift(r, x) + if reverted then 0 else OpeningGap(r, x, call)
    requires reverted ==> forall c :: Claimed(g, c) ==> Peek(r, y, c) == Peek(r, x, c)
    requires Billed(r, y, w', call.from, gas, header, tx, bill)
    ensures ValueKept(r, w, w', call, gas, header, tx, bill, reverted, g)
  {
    hide Drift, BurnPrice, EffectivePrice, SatSub;
    var have, prepayment := BalanceOf(r, w, call.from), gas * tx.gasPrice;
    PaidShort(have, prepayment);
    if reverted {
      AgreeOnAccounts(r, x, y, g);
      forall a ensures BalanceOf(r, x, a) == if a == call.from then SatSub(have, prepayment) else BalanceOf(r, w, a) {
        assert a != call.from ==> AccountOf(r, x, a) == AccountOf(r, w, a);
      }
    }
  }

  lemma PaidShort(have: Word, need: Word)
    ensures SatSub(have, need) + need == have + Shortfall(have, need)
  {
  }

  lemma PaidReads(r: Remote, w: World, x: World, from: Address, amount: Word)
    requires PaidUp(r, w, x, from, amount)
    ensures x.cache == w.cache && NonceOf(r, x, from) == NonceOf(r, w, from)
    ensures forall c: Cell :: !c.Balance? ==> Peek(r, x, c) == Peek(r, w, c)
  {
    hide Drift, SatSub, Shortfall;
    forall c: Cell | !c.Balance? ensures Peek(r, x, c) == Peek(r, w, c) {
      assert (c.Nonce? || c.Code?) && c.addr != from ==> AccountOf(r, x, c.addr) == AccountOf(r, w, c.addr);
    }
  }

  /** Bill the gas, refund what is left of the prepayment, tip the coinbase. */
  method Close(evm: Evm, ext: Ext, call: Call, gas: nat, header: Header, tx: TxContext, before: Word)
    returns (result: TxResult)
    requires 0 <= evm.gas.used <= gas - Intrinsic(call, tx) && evm.gas.refund >= 0 && call.from in ext.accounts
    modifies evm`touches, ext`accounts
    ensures result.Underflow? ==>
      EffectivePrice(tx, header.baseFee) > tx.gasPrice || GasFloor(call) > gas || call.to == 0
    ensures !result.Crashed?
    ensures result.Settled? ==>
      var total := evm.gas.used + GasCosts(call, tx, |evm.ret|);
      && result.gas == Bill(evm.gas, evm.reverted, |evm.ret|, call, tx)
      && Billing(evm.gas, evm.reverted, total, GasFloor(call), result.gas)
      && Max(total - total / 5, GasFloor(call)) <= result.gas <= Max(total, GasFloor(call))
      && (call.to != 0 ==> total <= gas)
      && Billed(ext.remote, old(ext.View()), ext.View(), call.from, gas, header, tx, result.gas)
  {
    hide SettledWorld, GasCosts, GasFloor, Bill, Drift, BurnPrice, EffectivePrice, Billing;
    BillBounds(evm.gas, evm.reverted, |evm.ret|, call, tx, gas);
    BillIs(evm.gas, evm.reverted, |evm.ret|, call, tx);
    var final := Bill(evm.gas, evm.reverted, |evm.ret|, call, tx);
    var ok, unused, tip := Fees(final, gas, header, tx);
    if !ok { return Underflow; }
    SettledDrift(ext.remote, ext.View(), call.from, header.miner, unused, tip);
    Settle(evm, ext, call.from, header.miner, before, unused, tip);
    result := Settled(final);
  }

  /** What a settled transaction means, for the world `w` it started from and the world `w'` it leaves. */
  ghost predicate Outcome(r: Remote, w: World, w': World, call: Call, gas: nat, header: Header, tx: TxContext, evm: Evm,
                          bill: int)
    reads evm
  {
    var g, total := evm.book.marks, evm.gas.used + GasCosts(call, tx, |evm.ret|);
    // gas
    && bill == Bill(evm.gas, evm.reverted, |evm.ret|, call, tx)
    && Max(total - total / 5, GasFloor(call)) <= bill <= Max(total, GasFloor(call))
    && (call.to != 0 ==> total <= gas)
    && 0 <= evm.gas.used <= evm.gas.limit == gas - Intrinsic(call, tx)
    && (evm.book.limited ==> gas >= DEPTH_SAFE_GAS)
    && Billing(evm.gas, evm.reverted, total, GasFloor(call), bill)
    && (!evm.reverted && Resets(r.storage, w.cache, evm.book.log) == 0
        && 24_000 * |Cleared(r.storage, w'.cache)| <= total ==>
          bill == Max(total - 4800 * |Cleared(r.storage, w'.cache)|, GasFloor(call)))
    // marks
    && Caused(g, evm.book.ran)
    // refunds
    && evm.gas.refund >= 0
    && (!evm.reverted ==>
          evm.gas.refund == ClearedRefund(r.storage, w'.cache) + Resets(r.storage, w.cache, evm.book.log))
    // undo
    && Originals(r.storage, w.cache, w'.cache)
    && (evm.reverted ==> SameStorage(r, w, w'))
    && (evm.reverted ==> forall c: Cell :: !c.Balance? && Claimed(g, c) ==> Peek(r, w', c) == Peek(r, w, c))
    // value
    && ValueKept(r, w, w', call, gas, header, tx, bill, evm.reverted, g)
    // nonce
    && call.from in w'.accounts
    && (NonceLeft(g, evm.reverted, call.from) ==>
          NonceOf(r, w', call.from) == NonceOf(r, w, call.from) + if evm.reverted then 0 else 1)
  }

  /** `execute`: a transaction whose gas limit covers its intrinsic cost. */
  method Execute(evm: Evm, ext: Ext, code: Bytecode, call: Call, gas: nat, header: Header, tx: TxContext)
    returns (result: TxResult, ghost ctx: Context, ghost run: Trace)
    requires Decoded(code) && Inert(evm.touches) && ext.original == map[]
    requires evm.stack == 0 && evm.memory == 0 && evm.memCost == 0 && evm.pc == 0
    requires Intrinsic(call, tx) <= gas
    modifies evm, ext
    // The subtraction underflows only when the price charged exceeds the price prepaid, the floor exceeds
    // the gas limit, or the transaction creates.
    ensures result.Underflow? ==>
      EffectivePrice(tx, header.baseFee) > tx.gasPrice || GasFloor(call) > gas || call.to == 0
    ensures result.Settled? ==>
      Outcome(ext.remote, old(ext.View()), ext.View(), call, gas, header, tx, evm, result.gas)
    // The run the gas was used by.
    ensures result.Settled? ==>
      && Executes(ext.remote, code, call, ctx, run) && run.first.gas == Gas(gas - Intrinsic(call, tx), 0, 0)
      && evm.gas == run.last.gas && evm.reverted == run.last.reverted && evm.ret == run.last.ret
      && RanOnly(code.bytecode, evm.book.ran)
    // Without code there is nothing to run and nothing but the intrinsic cost to pay.
    ensures code.bytecode == [] && !old(evm.reverted) ==>
      !result.Crashed? && !evm.reverted && evm.gas == Gas(gas - Intrinsic(call, tx), 0, 0)
  {
    hide Decoded, GasFloor, EffectivePrice, PaidUp, RanOnly, Executes, TopRan, Outcome;
    ghost var w := ext.View();
    var before := Begin(evm, ext, call, header.miner, tx, gas * tx.gasPrice);
    ghost var x := ext.View();
    PaidReads(ext.remote, w, x, call.from, gas * tx.gasPrice);
    var listCost := AccessListCost(tx.accessList);
    var panicked;
    panicked, ctx, run := RunTop(evm, ext, code, call, gas - 21_000 - listCost - DataCost(call.data));
    if panicked { return Crashed, ctx, run; }
    result := Conclude(evm, ext, call, gas, header, tx, before, w, x);
  }

  /** Settle a transaction that started from `w` and whose outermost frame was opened in `x`. */
  method Conclude(evm: Evm, ext: Ext, call: Call, gas: nat, header: Header, tx: TxContext, before: Word, ghost w: World,
                  ghost x: World)
    returns (result: TxResult)
    requires PaidUp(ext.remote, w, x, call.from, gas * tx.gasPrice)
    requires TopRan(ext.remote, x, ext.View(), call, evm) && evm.gas.limit == gas - Intrinsic(call, tx)
    modifies evm`touches, ext`accounts
    ensures !result.Crashed?
    ensures result.Underflow? ==>
      EffectivePrice(tx, header.baseFee) > tx.gasPrice || GasFloor(call) > gas || call.to == 0
    ensures result.Settled? ==> Outcome(ext.remote, w, ext.View(), call, gas, header, tx, evm, result.gas)
  {
    hide Originals, ClearedRefund, GasCosts, GasFloor, BurnPrice, EffectivePrice, Bill, PaidUp, ValueKept, Drift,
         OpeningGap, Caused, Resets, SameStorage, Billing, Peek, Intrinsic;
    ghost var r, y := ext.remote, ext.View();
    PaidReads(r, w, x, call.from, gas * tx.gasPrice);
    result := Close(evm, ext, call, gas, header, tx, before);
    if result.Settled? {
      WholeValue(r, w, x, y, ext.View(), call, gas, header, tx, result.gas, evm.reverted, evm.book.marks);
      PeekNonce(r, y, ext.View(), call.from);
      SameCacheSameStorage(r, w, x, y, ext.View());
      BillingOfCleared(r.storage, ext.View().cache, evm.gas, evm.reverted,
                       evm.gas.used + GasCosts(call, tx, |evm.ret|), GasFloor(call), result.gas);
    }
  }

  lemma PeekNonce(r: Remote, w: World, w': World, a: Address)
    requires Peek(r, w', Nonce(a)) == Peek(r, w, Nonce(a))
    ensures NonceOf(r, w', a) == NonceOf(r, w, a)
  {
  }

  lemma SameCacheSameStorage(r: Remote, w: World, x: World, y: World, w': World)
    requires x.cache == w.cache && w'.cache == y.cache
    ensures SameStorage(r, x, y) <==> SameStorage(r, w, w')
  {
  }

  lemma BillBounds(used: Gas, reverted: bool, retLen: nat, call: Call, tx: TxContext, gas: nat)
    requires 0 <= used.used && used.refund >= 0 && used.used <= gas - Intrinsic(call, tx)
    ensures var total, bill := used.used + GasCosts(call, tx, retLen), Bill(used, reverted, retLen, call, tx);
            && Max(total - total / 5, GasFloor(call)) <= bill <= Max(total, GasFloor(call))
            && (call.to != 0 ==> total <= gas) && bill >= 21_000
  {
    FinalizedBounds(used, GasCosts(call, tx, retLen), reverted);
  }

  /** Saturating subtraction forgives nothing exactly when the sender can pay the gas in advance and then,
      unless the run reverts, the value. */
  lemma ForgivenNothingIff(r: Remote, w: World, call: Call, prepayment: Word, reverted: bool)
    ensures Forgiven(r, w, call, prepayment, reverted) == 0 <==>
              BalanceOf(r, w, call.from) >= prepayment
              + if reverted || call.value == 0 || call.to == 0 then 0 else call.value
  {
  }

  // ----- Runner::apply ------------------------------------------------------------------

  /** The code of the target, or of the account it delegates to, decoded. */
  method LoadProgram(evm: Evm, ext: Ext, to: Address) returns (code: Bytecode)
    requires Inert(evm.touches)
    modifies evm`touches, ext`accounts
    ensures Decoded(code) && code.bytecode == CalleeCode(ext.remote, old(ext.View()), to)
    ensures Inert(evm.touches) && Quiet(ext.remote, old(ext.View()), ext.View())
  {
    hide BigEndian, Decoded;
    var acc := ext.Load(to);
    evm.touches := evm.touches + [GetCode(to, acc.code)];
    var bytes := acc.code;
    if IsDelegation(bytes) {
      var target := BigEndian(bytes[3..]);
      acc := ext.Load(target);
      evm.touches := evm.touches + [GetCode(target, acc.code)];
      bytes := acc.code;
    }
    code := Decode(bytes);
  }

  lemma SameAccountsSameCallee(r: Remote, w: World, w': World, a: Address)
    requires w.accounts == w'.accounts
    ensures CalleeCode(r, w, a) == CalleeCode(r, w', a)
  {
  }

  ghost predicate SameValue(r: Remote, w: World, w': World) {
    Drift(r, w') == Drift(r, w) && forall a :: BalanceOf(r, w', a) == BalanceOf(r, w, a)
  }

  /** Entering an address as empty keeps all balances exactly when it was cached already or held nothing: a
      balance that only the snapshot knows is forgotten. */
  lemma EnteringKeepsValueIff(r: Remote, w: World, a: Address)
    ensures SameValue(r, w, Entered(w, a)) <==> a in w.accounts || BalanceOf(r, w, a) == 0
  {
    var w' := Entered(w, a);
    if a in w.accounts || BalanceOf(r, w, a) == 0 {
      DriftKept(r, w, w');
    } else {
      assert BalanceOf(r, w', a) == 0;
    }
  }

  /** What `apply` does to the world before `execute`: it warms, caches, and enters the address a creation
      by this sender would get, although a call creates nothing. */
  method Prepare(evm: Evm, ext: Ext, call: Call, coinbase: Address, tx: TxContext)
    returns (code: Bytecode, created: Address)
    requires evm.touches == []
    modifies evm`touches, ext
    ensures Decoded(code) && Inert(evm.touches) && ext.original == old(ext.original)
    ensures code.bytecode == CalleeCode(ext.remote, old(ext.View()), call.to)
    ensures AccountOf(ext.remote, ext.View(), call.from) == AccountOf(ext.remote, old(ext.View()), call.from)
    ensures created in old(ext.accounts) || BalanceOf(ext.remote, old(ext.View()), created) == 0 ==>
              SameValue(ext.remote, old(ext.View()), ext.View())
    ensures ext.View().cache == old(ext.View()).cache
  {
    hide BigEndian, Decoded, CalleeCode;
    ghost var r, w := ext.remote, ext.View();
    if coinbase != 0 {
      var _ := ext.WarmAddress(coinbase);
    }
    SameAccountsSameCallee(r, w, ext.View(), call.to);
    code := LoadProgram(evm, ext, call.to);
    ghost var v := ext.View();
    ApplyAccessList(ext, tx.accessList);
    ext.Pull(call.from);
    assert Quiet(r, v, ext.View());
    created :| created >= 0;
    WarmUnbooked(evm, ext, created);
    ghost var x := ext.View();
    assert forall a :: AccountOf(r, w, a) == AccountOf(r, v, a);
    assert Quiet(r, v, x);
    if created !in ext.accounts {
      ext.accounts := ext.accounts[created := Account(0, 0, [])];
    }
    DriftKept(r, w, x);
    EnteringKeepsValueIff(r, x, created);
    assert ext.View() == Entered(x, created);
  }

  /** `apply` for a call: whether the run succeeds or reverts, the sender's nonce ends up one higher.
      The gas it reports leaves out the calldata floor that `execute` bills. */
  method ApplyCall(ext: Ext, call: Call, gas: nat, header: Header, tx: TxContext)
    returns (result: TxResult, evm: Evm, gasUse: int, ghost created: Address, ghost ctx: Context, ghost run: Trace)
    requires call.to != 0 && ext.original == map[] && Intrinsic(call, tx) <= gas
    modifies ext
    ensures result.Underflow? ==> EffectivePrice(tx, header.baseFee) > tx.gasPrice || GasFloor(call) > gas
    ensures result.Settled? ==>
      var r, w, w', g := ext.remote, old(ext.View()), ext.View(), evm.book.marks;
      && (NonceLeft(g, evm.reverted, call.from) ==> NonceOf(r, w', call.from) == NonceOf(r, w, call.from) + 1)
      && (evm.reverted ==> SameStorage(r, w, w')) && Originals(r.storage, w.cache, w'.cache)
      && Caused(g, evm.book.ran) && RanOnly(CalleeCode(r, w, call.to), evm.book.ran)
      && (created in w.accounts || BalanceOf(r, w, created) == 0 ==>
            ValueKept(r, w, w', call, gas, header, tx, result.gas, evm.reverted, g))
      && gasUse == evm.gas.Finalized(Intrinsic(call, tx), evm.reverted) <= result.gas <= Max(gas, GasFloor(call))
      && result.gas == Max(gasUse, GasFloor(call))
      && Billing(evm.gas, evm.reverted, evm.gas.used + Intrinsic(call, tx), 0, gasUse)
      && (exists code ::
            Decoded(code) && code.bytecode == CalleeCode(r, w, call.to) && Executes(r, code, call, ctx, run))
      && run.first.gas == Gas(gas - Intrinsic(call, tx), 0, 0) && evm.gas == run.last.gas
      // Four fifths of the intrinsic cost above the floor are enough for an honest report.
      && (Intrinsic(call, tx) - Intrinsic(call, tx) / 5 >= GasFloor(call) ==> gasUse == result.gas)
    // For a target without code the report is honest exactly when the intrinsic cost covers the floor.
    ensures result.Settled? && CalleeCode(ext.remote, old(ext.View()), call.to) == [] ==>
      gasUse == Intrinsic(call, tx) && (gasUse == result.gas <==> Intrinsic(call, tx) >= GasFloor(call))
  {
    hide Decoded, Originals, ClearedRefund, CalleeCode, BurnPrice, Intrinsic, GasFloor, ValueKept, Drift, Caused,
         RanOnly, Resets, SameStorage, Executes;
    ghost var start := ext.View();
    evm := new Evm(0, Book(start.cache, false, 0, 0, 0, start, [], CLEAN, 0, false, {}));
    var code, address := Prepare(evm, ext, call, header.miner, tx);
    created := address;
    ghost var ready := ext.View();
    result, ctx, run := Execute(evm, ext, code, call, gas, header, tx);
    gasUse := 0;
    if result.Settled? {
      ghost var end := ext.View();
      if evm.reverted {
        Renumber(ext, call.from);
      }
      gasUse := evm.gas.Finalized(Intrinsic(call, tx), evm.reverted);
      FourFifthsGrow(Intrinsic(call, tx), evm.gas.used + Intrinsic(call, tx));
      SameCacheSameStorage(ext.remote, start, ready, end, ext.View());
      if created in start.accounts || BalanceOf(ext.remote, start, created) == 0 {
        SameValueKept(ext.remote, start, ready, end, ext.View(), call, gas, header, tx, result.gas, evm.reverted,
                      evm.book.marks);
      }
    }
  }

  lemma SameValueKept(r: Remote, w: World, x: World, y: World, w': World, call: Call, gas: nat, header: Header,
                      tx: TxContext, bill: int, reverted: bool, g: Marks)
    requires SameValue(r, w, x) && SameValue(r, y, w')
    requires ValueKept(r, x, y, call, gas, header, tx, bill, reverted, g)
    ensures ValueKept(r, w, w', call, gas, header, tx, bill, reverted, g)
  {
    hide Drift, BurnPrice, EffectivePrice, SatSub;
  }

  lemma FourFifthsGrow(less: nat, more: nat)
    requires less <= more
    ensures less - less / 5 <= more - more / 5
  {
  }

  /** The intrinsic cost covers the calldata floor exactly when the access list pays for what the floor adds: 6 gas
      per zero byte and 24 per non-zero byte. */
  lemma IntrinsicCoversFloorIff(call: Call, tx: TxContext)
    ensures Intrinsic(call, tx) >= GasFloor(call) <==>
              AccessListPrice(tx.accessList) >= 6 * (|call.data| - NonZero(call.data)) + 24 * NonZero(call.data)
  {
  }

  /** One byte of calldata to an account without code: billed 21040, reported 21016. */
  lemma UnderreportedCall()
    ensures var call, tx := Call([1], 0, 1, 2), TxContext(1, 1, 0, []);
            Intrinsic(call, tx) == 21_016 && GasFloor(call) == 21_040
            && Bill(Gas(0, 0, 0), false, 0, call, tx) == 21_040
            && Gas(0, 0, 0).Finalized(Intrinsic(call, tx), false) == 21_016
  {
    assert NonZero([1]) == 1 by { assert [1][..0] == []; }
  }

  /** Code without SELFDESTRUCT and without instructions that open frames leaves no mark on the nonces, code
      or balances, so all the claims about its transaction hold without condition. */
  lemma PlainCodeIsUnmarked(code: seq<Byte>, ran: set<Byte>, g: Marks)
    requires RanOnly(code, ran) && Caused(g, ran)
    requires forall op :: OpensFrame(op) || op == SELFDESTRUCT ==> !Contains(code, op)
    ensures g.moved == g.collided == g.nonces == {} && !g.lost
  {
    assert OpensFrame(CREATE) && OpensFrame(CREATE2);
  }

  /** The nonce of a valid transaction counts even when the transaction reverts. */
  method Renumber(ext: Ext, from: Address)
    requires from in ext.accounts
    modifies ext`accounts
    ensures NonceOf(ext.remote, ext.View(), from) == NonceOf(ext.remote, old(ext.View()), from) + 1
    ensures SameValue(ext.remote, old(ext.View()), ext.View())
  {
    ghost var w := ext.View();
    ext.accounts := ext.accounts[from := ext.accounts[from].(nonce := ext.accounts[from].nonce + 1)];
    DriftKept(ext.remote, w, ext.View());
  }
}
