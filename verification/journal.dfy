/** The undo journal: what a frame records (`AccountTouch`), how replaying it backwards answers, and
    the relation between a journal segment and the two worlds it connects. */
module Journal {
  import opened Types
  import opened State
  import opened Supply

  datatype Touch =
    | Noop
    | WarmUp(addr: Address)
    | FeePay(addr: Address, before: Word, after: Word)
    | GetNonce(addr: Address, nonce: Word)
    | GetValue(addr: Address, value: Word)
    | GetCode(addr: Address, code: seq<Byte>)
    | GetState(slot: Slot, val: Word, isWarm: bool)
    | SetNonce(addr: Address, val: Word, next: Word)
    | SetValue(addr: Address, val: Word, next: Word)
    | SetState(slot: Slot, val: Word, next: Word, isWarm: bool)
    | SetTransientState(slot: Slot, val: Word, next: Word)
    | Create(addr: Address, value: Word, nonce: Word, code: seq<Byte>)
  {
    predicate IsReadOnly() {
      GetCode? || GetState? || GetNonce? || GetValue?
    }

    /** Kept in the parent's journal even when the frame that recorded it is undone. */
    predicate SurvivesRevert() {
      IsReadOnly() || FeePay? || Create?
    }
  }

  // ----- replaying a journal backwards --------------------------------------------------

  /** What undoing one entry puts back into a cell, if it touches the cell at all. */
  function OldValue(t: Touch, c: Cell): Option<Value> {
    match t
    case SetState(k, v, _, _) => if c == Storage(k) then Some(Num(v)) else None
    case SetTransientState(k, v, _) => if c == Transient(k) then Some(Num(v)) else None
    case SetNonce(a, v, _) => if c == Nonce(a) then Some(Num(v)) else None
    case SetValue(a, v, _) => if c == Balance(a) then Some(Num(v)) else None
    case Create(a, _, _, _) =>
      if c == Nonce(a) || c == Balance(a) then Some(Num(0))
      else if c == Code(a) then Some(Bytes([])) else None
    case _ => None
  }

  function Undone(t: Touch, c: Cell, v: Value): Value {
    if OldValue(t, c).Some? then OldValue(t, c).value else v
  }

  /** The content of a cell after undoing the whole journal, latest entry first. */
  function Back(j: seq<Touch>, c: Cell, v: Value): Value {
    if j == [] then v else Back(j[..|j| - 1], c, Undone(j[|j| - 1], c, v))
  }

  /** Slots that undoing the journal makes cold again. */
  function ColdSlots(j: seq<Touch>): set<Slot> {
    set t | t in j && (t.GetState? || t.SetState?) && !t.isWarm :: t.slot
  }

  /** Addresses that undoing the journal makes cold again. */
  function Warmed(j: seq<Touch>): set<Address> {
    set t | t in j && t.WarmUp? :: t.addr
  }

  function Survivors(j: seq<Touch>): seq<Touch> {
    if j == [] then []
    else
      var rest := Survivors(j[..|j| - 1]);
      if j[|j| - 1].SurvivesRevert() then rest + [j[|j| - 1]] else rest
  }

  lemma {:induction false} BackConcat(j: seq<Touch>, k: seq<Touch>, c: Cell, v: Value)
    ensures Back(j + k, c, v) == Back(j, c, Back(k, c, v))
  {
    if k == [] {
      assert j + k == j;
    } else {
      var last := k[|k| - 1];
      assert (j + k)[..|j + k| - 1] == j + k[..|k| - 1];
      BackConcat(j, k[..|k| - 1], c, Undone(last, c, v));
    }
  }

  lemma BackOne(t: Touch, c: Cell, v: Value)
    ensures Back([t], c, v) == Undone(t, c, v)
  {
    assert [t][..0] == [];
  }

  /** A cell no entry disagrees about keeps its value. */
  lemma {:induction false} BackFixed(j: seq<Touch>, c: Cell, v: Value)
    requires forall t :: t in j ==> Undone(t, c, v) == v
    ensures Back(j, c, v) == v
  {
    if j != [] {
      assert j[|j| - 1] in j;
      BackFixed(j[..|j| - 1], c, v);
    }
  }

  lemma {:induction false} SurvivorsMembers(j: seq<Touch>)
    ensures forall t :: t in Survivors(j) <==> t in j && t.SurvivesRevert()
  {
    if j != [] {
      SurvivorsMembers(j[..|j| - 1]);
      assert j == j[..|j| - 1] + [j[|j| - 1]];
    }
  }

  // ----- what a journal segment promises -----------------------------------------------

  /** What a run did that its journal cannot take back, key by key.
      `leaked`: slots warmed by an SLOAD or SSTORE that halted before recording a touch.
      `collided`: addresses whose nonce and code a creation overwrote although they were in use.
      `moved`: addresses whose balance moved outside the journal's order, or unrecorded.
      `lost`: the total of all balances may have changed.
      `nonces`: addresses whose nonce a creation changed. */
  datatype Marks = Marks(leaked: set<Slot>, collided: set<Address>, moved: set<Address>, lost: bool,
                         nonces: set<Address>)

  const CLEAN := Marks({}, {}, {}, false, {})

  function Join(g: Marks, h: Marks): Marks {
    Marks(g.leaked + h.leaked, g.collided + h.collided, g.moved + h.moved, g.lost || h.lost, g.nonces + h.nonces)
  }

  lemma JoinClean(g: Marks)
    ensures Join(g, CLEAN) == g
  {
  }

  /** The cells whose undo is claimed to be exact. */
  predicate Claimed(g: Marks, c: Cell) {
    match c
    case Storage(_) => true
    case Transient(_) => true
    case Nonce(a) => a !in g.collided
    case Code(a) => a !in g.collided
    case Balance(a) => a !in g.moved
  }

  /** Undoing `j` from world `w` reads, in every claimed cell, as world `s` did. */
  ghost predicate Rewinds(r: Remote, s: World, j: seq<Touch>, w: World, g: Marks) {
    forall c :: Claimed(g, c) ==> Back(j, c, Peek(r, w, c)) == Peek(r, s, c)
  }

  /** Warm sets only grow, and every entry that would cool a key names one that was cold at `s`. */
  ghost predicate WarmthTracked(s: World, j: seq<Touch>, w: World, g: Marks) {
    && s.warmSlots <= w.warmSlots <= s.warmSlots + ColdSlots(j) + g.leaked
    && ColdSlots(j) !! s.warmSlots
    && w.warmAddresses == s.warmAddresses + Warmed(j)
    && Warmed(j) !! s.warmAddresses
  }

  predicate Fresh(r: Remote, w: World, a: Address) {
    NonceOf(r, w, a) == 0 && CodeOf(r, w, a) == []
  }

  /** Accounts only gain: nonces never fall and deployed code stays. */
  ghost predicate AccountsGrow(r: Remote, s: World, w: World, collided: set<Address>) {
    forall a :: a !in collided ==>
      && NonceOf(r, s, a) <= NonceOf(r, w, a)
      && (CodeOf(r, s, a) != [] ==> CodeOf(r, w, a) == CodeOf(r, s, a))
  }

  /** Created addresses were fresh at `s`, unless they collided. */
  ghost predicate CreationsFresh(r: Remote, s: World, j: seq<Touch>, g: Marks) {
    forall t :: t in j && t.Create? ==> t.addr in g.nonces && (t.addr in g.collided || Fresh(r, s, t.addr))
  }

  ghost predicate NoncesKept(r: Remote, s: World, w: World, changed: set<Address>) {
    forall a :: a !in changed ==> NonceOf(r, w, a) == NonceOf(r, s, a)
  }

  /** Undo never meets a missing account, where `account_mut` would panic. */
  ghost predicate UndoDefined(j: seq<Touch>, w: World) {
    forall t :: t in j && (t.SetNonce? || t.SetValue? || t.Create?) ==> t.addr in w.accounts
  }

  ghost predicate Tracks(r: Remote, s: World, j: seq<Touch>, w: World, g: Marks) {
    && Rewinds(r, s, j, w, g)
    && WarmthTracked(s, j, w, g)
    && s.accounts.Keys <= w.accounts.Keys
    && s.cache.original.Keys <= w.cache.original.Keys
    && UndoDefined(j, w)
    && AccountsGrow(r, s, w, g.collided)
    && CreationsFresh(r, s, j, g)
    && NoncesKept(r, s, w, g.nonces + g.collided)
    && (!g.lost ==> Drift(r, w) == Drift(r, s))
  }

  /** Segments compose. */
  lemma TracksConcat(r: Remote, s: World, j: seq<Touch>, w: World, g: Marks, k: seq<Touch>, x: World, h: Marks)
    requires Tracks(r, s, j, w, g) && Tracks(r, w, k, x, h)
    ensures Tracks(r, s, j + k, x, Join(g, h))
  {
    forall c | Claimed(Join(g, h), c)
      ensures Back(j + k, c, Peek(r, x, c)) == Peek(r, s, c)
    {
      BackConcat(j, k, c, Peek(r, x, c));
    }
    assert ColdSlots(j + k) == ColdSlots(j) + ColdSlots(k);
    assert Warmed(j + k) == Warmed(j) + Warmed(k);
  }

  /** `w'` is what undoing journal `j` makes of world `w`. */
  ghost predicate IsUndo(r: Remote, w: World, j: seq<Touch>, w': World) {
    && (forall c :: Peek(r, w', c) == Back(j, c, Peek(r, w, c)))
    && w'.warmSlots == w.warmSlots - ColdSlots(j)
    && w'.warmAddresses == w.warmAddresses - Warmed(j)
    && w'.cache.original == w.cache.original
    && w'.accounts.Keys == w.accounts.Keys
  }

  /** One iteration of the undo loop. */
  function UndoOne(r: Remote, w: World, t: Touch): World {
    match t
    case SetState(k, v, _, isWarm) =>
      w.(cache := w.cache.(state := w.cache.state[k := v]),
         warmSlots := if isWarm then w.warmSlots else w.warmSlots - {k})
    case SetTransientState(k, v, _) => w.(transient := w.transient[k := v])
    case GetState(k, _, isWarm) => w.(warmSlots := if isWarm then w.warmSlots else w.warmSlots - {k})
    case SetNonce(a, v, _) => w.(accounts := w.accounts[a := AccountOf(r, w, a).(nonce := v)])
    case SetValue(a, v, _) => w.(accounts := w.accounts[a := AccountOf(r, w, a).(value := v)])
    case Create(a, _, _, _) => w.(accounts := w.accounts[a := Account(0, 0, [])])
    case WarmUp(a) => w.(warmAddresses := w.warmAddresses - {a})
    case _ => w
  }

  lemma UndoOneReads(r: Remote, w: World, t: Touch, c: Cell)
    ensures Peek(r, UndoOne(r, w, t), c) == Undone(t, c, Peek(r, w, c))
  {
  }

  lemma UndoOneMore(r: Remote, w: World, j: seq<Touch>, x: World, t: Touch)
    requires IsUndo(r, w, j, x)
    requires t.SetNonce? || t.SetValue? || t.Create? ==> t.addr in x.accounts
    ensures IsUndo(r, w, [t] + j, UndoOne(r, x, t))
  {
    forall c ensures Peek(r, UndoOne(r, x, t), c) == Back([t] + j, c, Peek(r, w, c)) {
      UndoOneReads(r, x, t, c);
      BackConcat([t], j, c, Peek(r, w, c));
      BackOne(t, c, Back(j, c, Peek(r, w, c)));
    }
    assert ColdSlots([t] + j) == ColdSlots([t]) + ColdSlots(j);
    assert Warmed([t] + j) == Warmed([t]) + Warmed(j);
    assert t in [t];
  }

  /** Created addresses that held a balance at `s`: undoing their creation once more would empty them. */
  function Funded(r: Remote, s: World, j: seq<Touch>): set<Address> {
    set t | t in j && t.Create? && BalanceOf(r, s, t.addr) != 0 :: t.addr
  }

  /** The marks of a frame that was undone: the total is back unless some balance is not. */
  function Leftover(r: Remote, s: World, j: seq<Touch>, g: Marks): Marks {
    g.(moved := g.moved + Funded(r, s, j), lost := g.moved != {})
  }

  lemma AgreeOnAccounts(r: Remote, s: World, w: World, g: Marks)
    requires forall c :: Claimed(g, c) ==> Peek(r, w, c) == Peek(r, s, c)
    ensures forall a :: a !in g.collided ==> NonceOf(r, w, a) == NonceOf(r, s, a) && CodeOf(r, w, a) == CodeOf(r, s, a)
    ensures forall a :: a !in g.moved ==> BalanceOf(r, w, a) == BalanceOf(r, s, a)
  {
    forall a | a !in g.collided ensures NonceOf(r, w, a) == NonceOf(r, s, a) && CodeOf(r, w, a) == CodeOf(r, s, a) {
      assert Claimed(g, Nonce(a)) && Claimed(g, Code(a));
    }
    forall a | a !in g.moved ensures BalanceOf(r, w, a) == BalanceOf(r, s, a) {
      assert Claimed(g, Balance(a));
    }
  }

  /** Undoing the surviving touches once more changes no claimed cell. */
  lemma SurvivorsAreHarmless(r: Remote, s: World, j: seq<Touch>, g: Marks, c: Cell)
    requires CreationsFresh(r, s, j, g) && Claimed(Leftover(r, s, j, g), c)
    ensures Back(Survivors(j), c, Peek(r, s, c)) == Peek(r, s, c)
  {
    SurvivorsMembers(j);
    forall t | t in Survivors(j)
      ensures Undone(t, c, Peek(r, s, c)) == Peek(r, s, c)
    {
      if t.Create? && OldValue(t, c).Some? {
        assert t.addr in g.collided || Fresh(r, s, t.addr);
        assert BalanceOf(r, s, t.addr) != 0 ==> t.addr in Funded(r, s, j);
      }
    }
    BackFixed(Survivors(j), c, Peek(r, s, c));
  }

  /** Undoing a whole frame gives back the world it started from, and the touches that survive into
      the parent's journal are harmless there. */
  lemma FailedFrame(r: Remote, s: World, j: seq<Touch>, w: World, g: Marks, w': World)
    requires Tracks(r, s, j, w, g) && IsUndo(r, w, j, w')
    ensures Tracks(r, s, Survivors(j), w', Leftover(r, s, j, g))
    ensures forall c :: Claimed(g, c) ==> Peek(r, w', c) == Peek(r, s, c)
    ensures w'.warmAddresses == s.warmAddresses
    ensures s.warmSlots <= w'.warmSlots <= s.warmSlots + g.leaked
    ensures g.moved == {} ==> Drift(r, w') == Drift(r, s)
  {
    SurvivorsMembers(j);
    var h := Leftover(r, s, j, g);
    forall c | Claimed(h, c)
      ensures Back(Survivors(j), c, Peek(r, w', c)) == Peek(r, s, c)
    {
      assert Claimed(g, c);
      SurvivorsAreHarmless(r, s, j, g, c);
    }
    AgreeOnAccounts(r, s, w', g);
    if g.moved == {} {
      DriftKept(r, s, w');
    }
  }

}
