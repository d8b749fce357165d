/** The world state one transaction works on: a write-through cache over a remote snapshot
    (`Ext` of src/ext.rs), seen as a value. */
module State {
  import opened Types

  datatype Account = Account(value: Word, nonce: Word, code: seq<Byte>)

  /** The node behind the cache, fixed at one block: a total function of address and slot. */
  datatype Remote = Remote(account: Address -> Account, storage: Slot -> Word)

  /** The storage half of the cache: current values and transaction-start values. */
  datatype Cache = Cache(state: map<Slot, Word>, original: map<Slot, Word>)

  datatype World = World(
    accounts: map<Address, Account>,
    cache: Cache,
    transient: map<Slot, Word>,
    warmAddresses: set<Address>,
    warmSlots: set<Slot>)

  // ----- storage cache ------------------------------------------------------------------

  /** What a storage read answers: the cached value, or the snapshot's. */
  function Read(base: Slot -> Word, c: Cache, k: Slot): Word {
    if k in c.state then c.state[k] else base(k)
  }

  /** The cache after `get`.  Without a remote (`live` false) a missing key is neither cached nor
      recorded as an original value. */
  function Fetch(live: bool, base: Slot -> Word, c: Cache, k: Slot): Cache {
    if k !in c.state && !live then c
    else
      var v := Read(base, c, k);
      Cache(c.state[k := v], if k in c.original then c.original else c.original[k := v])
  }

  /** Everything the interpreter does to the storage cache: SLOAD reads, SSTORE reads then writes,
      undoing a journal entry writes without reading. */
  datatype CacheOp = Load(slot: Slot) | Store(slot: Slot, value: Word) | Restore(slot: Slot, value: Word)

  function Apply(live: bool, base: Slot -> Word, c: Cache, op: CacheOp): Cache {
    match op
    case Load(k) => Fetch(live, base, c, k)
    case Store(k, v) => var d := Fetch(live, base, c, k); d.(state := d.state[k := v])
    case Restore(k, v) => c.(state := c.state[k := v])
  }

  function ApplyAll(live: bool, base: Slot -> Word, c: Cache, ops: seq<CacheOp>): Cache {
    if ops == [] then c
    else Apply(live, base, ApplyAll(live, base, c, ops[..|ops| - 1]), ops[|ops| - 1])
  }

  /** Reference answer: the last value written to `k`, or `v` when nothing wrote it. */
  function LastWrite(ops: seq<CacheOp>, k: Slot, v: Word): Word {
    if ops == [] then v
    else
      var op := ops[|ops| - 1];
      if op.slot == k && !op.Load? then op.value else LastWrite(ops[..|ops| - 1], k, v)
  }

  /** Reads are the snapshot overlaid with this run's writes, with or without a remote
      (without one the snapshot is all zeros). */
  lemma {:induction false} CacheIsOverlay(live: bool, base: Slot -> Word, c: Cache, ops: seq<CacheOp>, k: Slot)
    ensures Read(base, ApplyAll(live, base, c, ops), k) == LastWrite(ops, k, Read(base, c, k))
  {
    if ops != [] {
      CacheIsOverlay(live, base, c, ops[..|ops| - 1], k);
    }
  }

  lemma {:induction false} LastWriteConcat(a: seq<CacheOp>, b: seq<CacheOp>, k: Slot, v: Word)
    ensures LastWrite(a + b, k, v) == LastWrite(b, k, LastWrite(a, k, v))
  {
    if b == [] {
      assert a + b == a;
    } else {
      assert (a + b)[..|a + b| - 1] == a + b[..|b| - 1];
      LastWriteConcat(a, b[..|b| - 1], k, v);
    }
  }

  /** Reads may be inserted anywhere: no later read changes. */
  lemma ExtraReadsAreInvisible(live: bool, base: Slot -> Word, c: Cache, before: seq<CacheOp>, extra: Slot,
                               after: seq<CacheOp>, k: Slot)
    ensures Read(base, ApplyAll(live, base, c, before + [Load(extra)] + after), k)
         == Read(base, ApplyAll(live, base, c, before + after), k)
  {
    var v := Read(base, c, k);
    CacheIsOverlay(live, base, c, before + [Load(extra)] + after, k);
    CacheIsOverlay(live, base, c, before + after, k);
    LastWriteConcat(before + [Load(extra)], after, k, v);
    LastWriteConcat(before, [Load(extra)], k, v);
    LastWriteConcat(before, after, k, v);
    assert [Load(extra)][..0] == [];
  }

  // ----- transaction-start values -------------------------------------------------------

  /** `original` holds the transaction-start value of every slot it records, and a slot it does not
      record still reads its transaction-start value. */
  ghost predicate Originals(base: Slot -> Word, atStart: Cache, now: Cache) {
    && (forall k :: k in now.original ==> now.original[k] == Read(base, atStart, k))
    && (forall k :: k !in now.original ==> Read(base, now, k) == Read(base, atStart, k))
  }

  /** A journal only ever restores slots that an SSTORE has fetched before. */
  ghost predicate RestoresRecorded(live: bool, base: Slot -> Word, c: Cache, ops: seq<CacheOp>) {
    forall i :: 0 <= i < |ops| && ops[i].Restore? ==> ops[i].slot in ApplyAll(live, base, c, ops[..i]).original
  }

  /** With a remote, every run of loads, stores and journal undos keeps the originals right. */
  lemma {:induction false} OriginalsSurvive(base: Slot -> Word, c: Cache, ops: seq<CacheOp>)
    requires c.original == map[]
    requires RestoresRecorded(true, base, c, ops)
    ensures Originals(base, c, ApplyAll(true, base, c, ops))
  {
    if ops != [] {
      var front := ops[..|ops| - 1];
      assert forall i :: 0 <= i < |front| ==> front[..i] == ops[..i];
      OriginalsSurvive(base, c, front);
      assert ops[|ops| - 1].Restore? ==> ops[|ops| - 1].slot in ApplyAll(true, base, c, front).original;
    }
  }

  /** The recorded value for `k`, if any, is its transaction-start value after every run of loads and stores. */
  ghost predicate OriginalTrusted(live: bool, base: Slot -> Word, c: Cache, k: Slot) {
    forall ops: seq<CacheOp> :: (forall op :: op in ops ==> !op.Restore?) ==>
      var d := ApplyAll(live, base, c, ops);
      k in d.original ==> d.original[k] == Read(base, c, k)
  }

  /** Without a remote and without a cached value, the first store is invisible to `original`, so a
      later read records the stored value instead of the transaction-start value. */
  lemma LocalOriginalIsLate(base: Slot -> Word, c: Cache, k: Slot)
    requires k !in c.state && c.original == map[]
    ensures !OriginalTrusted(false, base, c, k)
  {
    var v := base(k) + 1;
    var ops := [Store(k, v), Load(k)];
    assert ops[..1] == [Store(k, v)];
    assert ApplyAll(false, base, c, []) == c;
    assert [Store(k, v)][..0] == [];
    var mid := ApplyAll(false, base, c, [Store(k, v)]);
    assert mid == Cache(c.state[k := v], map[]);
    assert ApplyAll(false, base, c, ops).original[k] == v;
  }

  lemma {:induction false} RecordedIsStartValue(live: bool, base: Slot -> Word, c: Cache, k: Slot, ops: seq<CacheOp>)
    requires c.original == map[]
    requires live || k in c.state
    requires forall op :: op in ops ==> !op.Restore?
    ensures var d := ApplyAll(live, base, c, ops);
            && (k in c.state ==> k in d.state)
            && (k in d.original ==> d.original[k] == Read(base, c, k))
            && (k !in d.original ==> Read(base, d, k) == Read(base, c, k))
  {
    if ops != [] {
      RecordedIsStartValue(live, base, c, k, ops[..|ops| - 1]);
      assert ops[|ops| - 1] in ops;
    }
  }

  /** Exactly when `original` can be trusted: there is a remote, or the slot was cached at the start. */
  lemma OriginalTrustedIff(live: bool, base: Slot -> Word, c: Cache, k: Slot)
    requires c.original == map[]
    ensures OriginalTrusted(live, base, c, k) <==> live || k in c.state
  {
    if live || k in c.state {
      forall ops: seq<CacheOp> | forall op :: op in ops ==> !op.Restore?
        ensures var d := ApplyAll(live, base, c, ops); k in d.original ==> d.original[k] == Read(base, c, k)
      {
        RecordedIsStartValue(live, base, c, k, ops);
      }
    } else {
      LocalOriginalIsLate(base, c, k);
    }
  }

  // ----- cells --------------------------------------------------------------------------

  /** The account an address reads as: the cached one, or the snapshot's. */
  function AccountOf(r: Remote, w: World, a: Address): Account {
    if a in w.accounts then w.accounts[a] else r.account(a)
  }

  function NonceOf(r: Remote, w: World, a: Address): Word {
    AccountOf(r, w, a).nonce
  }

  function BalanceOf(r: Remote, w: World, a: Address): Word {
    AccountOf(r, w, a).value
  }

  function CodeOf(r: Remote, w: World, a: Address): seq<Byte> {
    AccountOf(r, w, a).code
  }

  /** Everything a frame can change and undo, one key at a time. */
  datatype Cell = Storage(slot: Slot) | Transient(slot: Slot)
                | Nonce(addr: Address) | Balance(addr: Address) | Code(addr: Address)

  datatype Value = Num(n: Word) | Bytes(b: seq<Byte>)

  function Peek(r: Remote, w: World, c: Cell): Value {
    match c
    case Storage(k) => Num(Read(r.storage, w.cache, k))
    case Transient(k) => Num(if k in w.transient then w.transient[k] else 0)
    case Nonce(a) => Num(NonceOf(r, w, a))
    case Balance(a) => Num(BalanceOf(r, w, a))
    case Code(a) => Bytes(CodeOf(r, w, a))
  }

  /** The world after `pull`: the account is cached as the snapshot has it. */
  function Pull(r: Remote, w: World, a: Address): World {
    if a in w.accounts then w else w.(accounts := w.accounts[a := r.account(a)])
  }
}
