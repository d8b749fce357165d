/** What a frame promises at every step, as a relation between its opening, its journal and the world
    it has reached. */
module Ledger {
  import opened Types
  import opened Opcodes
  import opened State
  import opened Supply
  import opened Journal
  import opened Segments
  import opened Limits
  import opened GasRules
  import opened Metering

  /** The books of one frame.
      Fixed when it is opened: `base`, the storage at transaction start; `isStatic`; `top`, the gas
      limit of the outermost frame; `levels`, the frames above this one; `limit`, its own gas limit;
      `start`, the world its journal leads back to.
      Growing as it runs: `log`, the journal; `marks`; `refund`, the refund counter; `limited`, whether the call
      depth limit was reached anywhere below; `ran`, the opcodes executed in this frame and in the frames below
      it. */
  datatype Book = Book(base: Cache, isStatic: bool, top: nat, levels: nat, limit: int, start: World,
                       log: seq<Touch>, marks: Marks, refund: int, limited: bool, ran: set<Byte>)

  function Opening(b: Book): Book {
    b.(log := [], marks := CLEAN, refund := 0, limited := false, ran := {})
  }

  /** Every mark has a cause among the opcodes that ran: only CREATE and CREATE2 collide or change nonces,
      only they and SELFDESTRUCT move value outside the journal's order, only SLOAD and SSTORE leak warmth. */
  predicate Caused(g: Marks, ran: set<Byte>) {
    && (g.collided != {} || g.nonces != {} ==> CREATE in ran || CREATE2 in ran)
    && (g.moved != {} || g.lost ==> CREATE in ran || CREATE2 in ran || SELFDESTRUCT in ran)
    && (g.leaked != {} ==> SLOAD in ran || SSTORE in ran)
  }

  lemma JoinCaused(g: Marks, ran: set<Byte>, h: Marks, ran': set<Byte>)
    requires Caused(g, ran) && Caused(h, ran')
    ensures Caused(Join(g, h), ran + ran')
  {
  }

  // ----- reset refunds ------------------------------------------------------------------

  /** What the stores in a journal were refunded for putting original values back; `atStart` is the storage at
      transaction start. */
  function Resets(base: Slot -> Word, atStart: Cache, j: seq<Touch>): nat {
    if j == [] then 0
    else
      var t := j[|j| - 1];
      Resets(base, atStart, j[..|j| - 1])
      + if t.SetState? then ResetRefund(Read(base, atStart, t.slot), t.val, t.next) else 0
  }

  lemma {:induction false} ResetsConcat(base: Slot -> Word, atStart: Cache, j: seq<Touch>, k: seq<Touch>)
    ensures Resets(base, atStart, j + k) == Resets(base, atStart, j) + Resets(base, atStart, k)
  {
    if k == [] {
      assert j + k == j;
    } else {
      assert (j + k)[..|j + k| - 1] == j + k[..|k| - 1];
      ResetsConcat(base, atStart, j, k[..|k| - 1]);
    }
  }

  ghost predicate Storeless(j: seq<Touch>) {
    forall t :: t in j ==> !t.SetState?
  }

  lemma {:induction false} StorelessResets(base: Slot -> Word, atStart: Cache, j: seq<Touch>, k: seq<Touch>)
    requires Storeless(k)
    ensures Resets(base, atStart, j + k) == Resets(base, atStart, j)
  {
    if k == [] {
      assert j + k == j;
    } else {
      assert (j + k)[..|j + k| - 1] == j + k[..|k| - 1];
      assert k[|k| - 1] in k;
      StorelessResets(base, atStart, j, k[..|k| - 1]);
    }
  }

  // ----- the frame invariant ------------------------------------------------------------

  /** Ordinary gas limits never reach the call depth limit. */
  const DEPTH_SAFE_GAS: nat := 990_000_000

  /** The frame invariant: the journal leads back to the start, recorded originals are right, the refund
      counter is the cleared slots' share plus resets, a static frame has changed no storage, and the
      depth limit is out of reach of ordinary gas limits, and every mark has its cause. */
  ghost predicate Consistent(r: Remote, w: World, b: Book) {
    && Tracks(r, b.start, b.log, w, b.marks)
    && Originals(r.storage, b.base, b.start.cache)
    && Originals(r.storage, b.base, w.cache)
    && b.refund == ClearedRefund(r.storage, w.cache) - ClearedRefund(r.storage, b.start.cache)
                 + Resets(r.storage, b.base, b.log)
    && (b.isStatic ==> SameStorage(r, b.start, w))
    && DepthBudget(b.top, b.levels, b.limit)
    && (b.limited || b.levels >= CALL_DEPTH_LIMIT ==> b.top >= DEPTH_SAFE_GAS)
    && Caused(b.marks, b.ran)
  }

  ghost predicate SameStorage(r: Remote, v: World, w: World) {
    forall k :: Read(r.storage, v.cache, k) == Read(r.storage, w.cache, k)
  }

  /** The books after a journal segment. */
  function Extended(b: Book, k: seq<Touch>, g: Marks): Book {
    b.(log := b.log + k, marks := Join(b.marks, g))
  }

  lemma OpenBook(r: Remote, b: Book)
    requires b == Opening(b)
    requires Originals(r.storage, b.base, b.start.cache)
    requires DepthBudget(b.top, b.levels, b.limit)
    requires b.levels >= CALL_DEPTH_LIMIT ==> b.top >= DEPTH_SAFE_GAS
    ensures Consistent(r, b.start, b)
  {
    QuietSegment(r, b.start, b.start);
  }

  /** A segment that leaves the storage cache alone. */
  lemma ExtendBook(r: Remote, w: World, b: Book, k: seq<Touch>, w': World, g: Marks)
    requires Consistent(r, w, b) && Tracks(r, w, k, w', g) && w'.cache == w.cache
    requires Caused(g, b.ran) && Storeless(k)
    ensures Consistent(r, w', Extended(b, k, g))
  {
    hide Tracks, Originals, ClearedRefund, DepthBudget, Resets;
    TracksConcat(r, b.start, b.log, w, b.marks, k, w', g);
    StorelessResets(r.storage, b.base, b.log, k);
  }

  lemma FetchKeepsOriginals(base: Slot -> Word, atStart: Cache, c: Cache, k: Slot)
    requires Originals(base, atStart, c)
    ensures Originals(base, atStart, Fetch(true, base, c, k))
    ensures forall k' :: Read(base, Fetch(true, base, c, k), k') == Read(base, c, k')
    ensures ClearedRefund(base, Fetch(true, base, c, k)) == ClearedRefund(base, c)
  {
    FetchKeepsCleared(base, c, k);
  }

  /** A segment that fetches a slot: SLOAD, and the halting reads. */
  lemma FetchBook(r: Remote, w: World, b: Book, j: seq<Touch>, w': World, g: Marks, k: Slot)
    requires Consistent(r, w, b) && Tracks(r, w, j, w', g) && Caused(g, b.ran) && Storeless(j)
    requires w'.cache == Fetch(true, r.storage, w.cache, k)
    ensures Consistent(r, w', Extended(b, j, g))
  {
    hide Tracks, Originals, ClearedRefund, DepthBudget, Resets;
    TracksConcat(r, b.start, b.log, w, b.marks, j, w', g);
    StorelessResets(r.storage, b.base, b.log, j);
    FetchKeepsOriginals(r.storage, b.base, w.cache, k);
  }

  lemma StoreKeepsOriginals(base: Slot -> Word, atStart: Cache, c: Cache, k: Slot, v: Word)
    requires Originals(base, atStart, c) && k in c.original
    ensures Originals(base, atStart, c.(state := c.state[k := v]))
  {
  }

  /** The books after an SSTORE. */
  function StoredBook(b: Book, t: Touch, original: Word): Book
    requires t.SetState?
  {
    Extended(b, [t], CLEAN).(refund := b.refund + Refund(original, t.val, t.next))
  }

  lemma OriginalIsStart(base: Slot -> Word, atStart: Cache, c: Cache, k: Slot)
    requires Originals(base, atStart, c)
    ensures var d := Fetch(true, base, c, k); k in d.original && d.original[k] == Read(base, atStart, k)
  {
  }

  lemma StoreResets(base: Slot -> Word, atStart: Cache, j: seq<Touch>, t: Touch)
    requires t.SetState?
    ensures Resets(base, atStart, j + [t])
         == Resets(base, atStart, j) + ResetRefund(Read(base, atStart, t.slot), t.val, t.next)
  {
    assert (j + [t])[..|j|] == j;
  }

  lemma StoreBook(r: Remote, w: World, b: Book, t: Touch, w': World)
    requires Consistent(r, w, b) && !b.isStatic
    requires t.SetState? && t.val == Read(r.storage, w.cache, t.slot) && Tracks(r, w, [t], w', CLEAN)
    requires var c := Fetch(true, r.storage, w.cache, t.slot); w'.cache == c.(state := c.state[t.slot := t.next])
    ensures Consistent(r, w', StoredBook(b, t, Fetch(true, r.storage, w.cache, t.slot).original[t.slot]))
  {
    hide Tracks, ClearedRefund, DepthBudget, Refund, ResetRefund;
    OriginalIsStart(r.storage, b.base, w.cache, t.slot);
    StoreResets(r.storage, b.base, b.log, t);
    hide Originals, Resets;
    TracksConcat(r, b.start, b.log, w, b.marks, [t], w', CLEAN);
    var c := Fetch(true, r.storage, w.cache, t.slot);
    FetchKeepsOriginals(r.storage, b.base, w.cache, t.slot);
    StoreKeepsOriginals(r.storage, b.base, c, t.slot, t.next);
    StoreMovesRefund(r.storage, c, t.slot, t.next);
  }

  /** One more opcode is executed. */
  lemma RanBook(r: Remote, w: World, b: Book, op: Byte)
    requires Consistent(r, w, b)
    ensures Consistent(r, w, b.(ran := b.ran + {op})) && Opening(b.(ran := b.ran + {op})) == Opening(b)
  {
  }

  // ----- merging a child frame ----------------------------------------------------------

  /** `inner` was opened by a frame with books `b`, in the world `inner` starts from. */
  ghost predicate Nested(r: Remote, b: Book, inner: Book) {
    && Consistent(r, inner.start, b)
    && inner.base == b.base && inner.top == b.top
    && (b.isStatic ==> inner.isStatic)
  }

  /** The child succeeded: its journal, refunds and marks become the caller's. */
  function Absorbed(b: Book, inner: Book): Book {
    Extended(b, inner.log, inner.marks).(refund := b.refund + inner.refund,
                                         limited := b.limited || inner.limited, ran := b.ran + inner.ran)
  }

  lemma AbsorbBook(r: Remote, w: World, b: Book, inner: Book)
    requires Nested(r, b, inner) && Consistent(r, w, inner)
    ensures Consistent(r, w, Absorbed(b, inner))
  {
    hide Tracks, Originals, ClearedRefund, DepthBudget, Resets;
    TracksConcat(r, b.start, b.log, inner.start, b.marks, inner.log, w, inner.marks);
    ResetsConcat(r.storage, b.base, b.log, inner.log);
    MergeStorage(r, w, b, inner);
  }

  lemma MergeStorage(r: Remote, w: World, b: Book, inner: Book)
    requires b.isStatic ==> SameStorage(r, b.start, inner.start) && SameStorage(r, inner.start, w)
    ensures b.isStatic ==> SameStorage(r, b.start, w)
  {
  }

  /** The child failed: only its surviving touches and its marks are left. */
  function Discarded(r: Remote, b: Book, inner: Book): Book {
    Extended(b, Survivors(inner.log), Leftover(r, inner.start, inner.log, inner.marks))
      .(limited := b.limited || inner.limited, ran := b.ran + inner.ran)
  }

  lemma UndoKeepsOriginals(r: Remote, base: Cache, s: World, j: seq<Touch>, w: World, g: Marks, w': World)
    requires Tracks(r, s, j, w, g) && IsUndo(r, w, j, w')
    requires Originals(r.storage, base, s.cache) && Originals(r.storage, base, w.cache)
    ensures SameStorage(r, s, w')
    ensures Originals(r.storage, base, w'.cache)
    ensures ClearedRefund(r.storage, w'.cache) == ClearedRefund(r.storage, s.cache)
  {
    forall k ensures Read(r.storage, s.cache, k) == Read(r.storage, w'.cache, k) {
      assert Claimed(g, Storage(k));
      assert Peek(r, w', Storage(k)) == Peek(r, s, Storage(k));
    }
    SameReadsSameCleared(r.storage, base, s.cache, w'.cache);
  }

  /** A world that reads like the one a frame with books `b` started from: storage, transient storage and
      warm addresses exactly; nonces and code but for addresses that collided; balances but for addresses whose
      value moved, and the total if there are none; warm slots up to those that halting reads leaked. */
  ghost predicate Restored(r: Remote, b: Book, w: World) {
    && (forall c :: Claimed(b.marks, c) ==> Peek(r, w, c) == Peek(r, b.start, c))
    && (b.marks.moved == {} ==> Drift(r, w) == Drift(r, b.start))
    && w.warmAddresses == b.start.warmAddresses
    && b.start.warmSlots <= w.warmSlots <= b.start.warmSlots + b.marks.leaked
    && Originals(r.storage, b.base, w.cache)
    && ClearedRefund(r.storage, w.cache) == ClearedRefund(r.storage, b.start.cache)
  }

  /** Undoing a frame's journal restores the world it started from. */
  lemma UndoRestores(r: Remote, w: World, b: Book, w': World)
    requires Consistent(r, w, b) && IsUndo(r, w, b.log, w')
    ensures Restored(r, b, w')
    ensures Tracks(r, b.start, Survivors(b.log), w', Leftover(r, b.start, b.log, b.marks))
    ensures SameStorage(r, b.start, w')
  {
    hide Tracks, Originals, ClearedRefund, DepthBudget, IsUndo;
    UndoKeepsOriginals(r, b.base, b.start, b.log, w, b.marks, w');
    FailedFrame(r, b.start, b.log, w, b.marks, w');
  }

  lemma SurvivorsStoreNothing(j: seq<Touch>)
    ensures Storeless(Survivors(j))
  {
    SurvivorsMembers(j);
  }

  lemma LeftoverCaused(r: Remote, w: World, b: Book)
    requires Consistent(r, w, b)
    ensures Caused(Leftover(r, b.start, b.log, b.marks), b.ran)
  {
    if a :| a in Funded(r, b.start, b.log) {
      assert a in b.marks.nonces;
    }
  }

  lemma DiscardBook(r: Remote, w: World, b: Book, inner: Book, w': World)
    requires Nested(r, b, inner) && Consistent(r, w, inner) && IsUndo(r, w, inner.log, w')
    ensures Consistent(r, w', Discarded(r, b, inner))
  {
    hide Tracks, Originals, ClearedRefund, DepthBudget, IsUndo, Resets, Leftover, Survivors, Caused, Join, SameStorage;
    LeftoverCaused(r, w, inner);
    JoinCaused(b.marks, b.ran, Leftover(r, inner.start, inner.log, inner.marks), inner.ran);
    UndoRestores(r, w, inner, w');
    TracksConcat(r, b.start, b.log, inner.start, b.marks, Survivors(inner.log), w',
                 Leftover(r, inner.start, inner.log, inner.marks));
    SurvivorsStoreNothing(inner.log);
    StorelessResets(r.storage, b.base, b.log, Survivors(inner.log));
    MergeStorage(r, w', b, inner);
  }

  // ----- CREATE -------------------------------------------------------------------------

  /** A child whose creation is committed: CREATE's own entries come before the child's in the journal.  `w` is the
      world the child ended in, `ran` what ran before it was opened. */
  function Installing(r: Remote, inner: Book, w: World, n: Creation, ran: set<Byte>): Book
    requires BothCached(w, n)
  {
    inner.(log := InstallEntries(w, n) + inner.log, marks := Join(inner.marks, CommitMarks(r, inner.start, w, n)),
           ran := inner.ran + ran)
  }

  function Committed(r: Remote, b: Book, inner: Book, w: World, n: Creation): Book
    requires BothCached(w, n)
  {
    Absorbed(b, Installing(r, inner, w, n, b.ran))
  }

  lemma InstallFacts(r: Remote, s: World, w: World, n: Creation)
    requires BothCached(w, n)
    ensures Installed(w, n).cache == w.cache && Storeless(InstallEntries(w, n))
    ensures forall ran: set<Byte> :: CREATE in ran || CREATE2 in ran ==> Caused(CommitMarks(r, s, w, n), ran)
    ensures forall v :: SameStorage(r, v, w) ==> SameStorage(r, v, Installed(w, n))
  {
  }

  lemma InstallingBook(r: Remote, w: World, inner: Book, n: Creation, ran: set<Byte>)
    requires Consistent(r, w, inner) && BothCached(w, n) && (CREATE in ran || CREATE2 in ran)
    ensures Consistent(r, Installed(w, n), Installing(r, inner, w, n, ran))
  {
    hide Tracks, Originals, ClearedRefund, DepthBudget, Resets, Installed, InstallEntries, CommitMarks, Caused, Join,
         SameStorage;
    InstallFacts(r, inner.start, w, n);
    JoinCaused(inner.marks, inner.ran, CommitMarks(r, inner.start, w, n), ran);
    CommitSegment(r, inner.start, inner.log, w, inner.marks, n);
    StorelessFirst(r.storage, inner.base, InstallEntries(w, n), inner.log);
  }

  lemma CommitBook(r: Remote, w: World, b: Book, inner: Book, n: Creation)
    requires Nested(r, b, inner) && Consistent(r, w, inner) && BothCached(w, n)
    requires CREATE in b.ran || CREATE2 in b.ran
    ensures Consistent(r, Installed(w, n), Committed(r, b, inner, w, n))
    ensures Committed(r, b, inner, w, n).ran == b.ran + inner.ran
  {
    hide Consistent, Installed, InstallEntries, CommitMarks, Join;
    InstallingBook(r, w, inner, n, b.ran);
    AbsorbBook(r, Installed(w, n), b, Installing(r, inner, w, n, b.ran));
  }

  lemma StorelessFirst(base: Slot -> Word, atStart: Cache, j: seq<Touch>, k: seq<Touch>)
    requires Storeless(j)
    ensures Resets(base, atStart, j + k) == Resets(base, atStart, k)
  {
    ResetsConcat(base, atStart, j, k);
    StorelessResets(base, atStart, [], j);
    assert [] + j == j;
  }
}
