/** Where the journal falls short: entering an address, SELFDESTRUCT, a creation, and an access that halts.  For
    each, the segment it adds, the marks it leaves, and the exact condition under which undo is right. */
module Limits {
  import opened Types
  import opened State
  import opened Supply
  import opened Journal
  import opened Segments

  // ----- entering an address ------------------------------------------------------------

  /** The created account is entered as empty unless it is already cached. */
  function Entered(w: World, a: Address): World {
    if a in w.accounts then w else WithAccount(w, a, Account(0, 0, []))
  }

  /** What only the snapshot knew about the address is forgotten. */
  function EnterMarks(r: Remote, w: World, a: Address): Marks {
    if a in w.accounts then CLEAN
    else
      var funded := BalanceOf(r, w, a) != 0;
      Marks({}, if Fresh(r, w, a) then {} else {a}, if funded then {a} else {}, funded, {})
  }

  lemma EnterSegment(r: Remote, w: World, a: Address)
    ensures Tracks(r, w, [], Entered(w, a), EnterMarks(r, w, a))
  {
    if !EnterMarks(r, w, a).lost {
      DriftKept(r, w, Entered(w, a));
    }
  }

  /** The marks are exact: entering an address changes its balance and the total exactly when it was uncached and
      funded, and its nonce or code exactly when it was uncached and in use. */
  lemma EnteringKeepsIff(r: Remote, w: World, a: Address)
    ensures var w', g := Entered(w, a), EnterMarks(r, w, a);
            && (BalanceOf(r, w', a) == BalanceOf(r, w, a) <==> a in w.accounts || BalanceOf(r, w, a) == 0)
            && (Drift(r, w') == Drift(r, w) <==> a in w.accounts || BalanceOf(r, w, a) == 0)
            && (NonceOf(r, w', a) == NonceOf(r, w, a) && CodeOf(r, w', a) == CodeOf(r, w, a)
                <==> a in w.accounts || Fresh(r, w, a))
            && (g.lost <==> Drift(r, w') != Drift(r, w))
            && (forall b :: b in g.moved <==> BalanceOf(r, w', b) != BalanceOf(r, w, b))
            && (forall b :: b in g.collided <==>
                  NonceOf(r, w', b) != NonceOf(r, w, b) || CodeOf(r, w', b) != CodeOf(r, w, b))
  {
    DriftShift(r, w, WithAccount(w, a, Account(0, 0, [])), a);
  }

  // ----- SELFDESTRUCT -------------------------------------------------------------------

  /** All of `a`'s balance given to `b`. */
  function Drained(r: Remote, w: World, a: Address, b: Address): World {
    var x := WithBalance(r, w, a, 0);
    WithBalance(r, x, b, BalanceOf(r, x, b) + BalanceOf(r, w, a))
  }

  /** The move is recorded nowhere, but the total stays. */
  function DrainMarks(r: Remote, w: World, a: Address, b: Address): Marks {
    CLEAN.(moved := if BalanceOf(r, w, a) == 0 || a == b then {} else {a, b})
  }

  lemma DrainedReads(r: Remote, w: World, a: Address, b: Address)
    ensures var w' := Drained(r, w, a, b);
            && w'.(accounts := w.accounts) == w && w'.accounts.Keys == w.accounts.Keys + {a, b}
            && (forall c :: Claimed(DrainMarks(r, w, a, b), c) ==> Peek(r, w', c) == Peek(r, w, c))
            && (forall d :: NonceOf(r, w', d) == NonceOf(r, w, d) && CodeOf(r, w', d) == CodeOf(r, w, d))
            && Drift(r, w') == Drift(r, w)
  {
    var w' := Drained(r, w, a, b);
    if a == b {
      assert forall d :: AccountOf(r, w', d) == AccountOf(r, w, d);
      DriftKept(r, w, w');
    } else {
      assert w' == Transferred(r, w, a, b, BalanceOf(r, w, a));
      TransferDrift(r, w, a, b, BalanceOf(r, w, a));
    }
  }

  lemma DrainSegment(r: Remote, w: World, a: Address, b: Address)
    ensures Tracks(r, w, [], Drained(r, w, a, b), DrainMarks(r, w, a, b))
  {
    DrainedReads(r, w, a, b);
    hide Drained, Drift;
  }

  /** SELFDESTRUCT adds no entry, so undo leaves its balances moved: nothing is out of place exactly when the
      account held nothing or is its own heir, and the marks name exactly what is. */
  lemma DestructUndoIff(r: Remote, w: World, a: Address, heir: Address)
    ensures (forall d :: Back([], Balance(d), Peek(r, Drained(r, w, a, heir), Balance(d))) == Peek(r, w, Balance(d)))
            <==> BalanceOf(r, w, a) == 0 || a == heir
    ensures forall d :: d in DrainMarks(r, w, a, heir).moved <==>
              Back([], Balance(d), Peek(r, Drained(r, w, a, heir), Balance(d))) != Peek(r, w, Balance(d))
  {
    var w' := Drained(r, w, a, heir);
    if BalanceOf(r, w, a) != 0 && a != heir {
      assert Peek(r, w', Balance(a)) == Num(0);
    }
  }

  // ----- halting accesses ---------------------------------------------------------------

  /** The warmth a halting access leaves behind. */
  function LeakMarks(w: World, k: Slot): Marks {
    CLEAN.(leaked := {k} - w.warmSlots)
  }

  /** Exact: undo after an access that halted restores the warm slots exactly when the slot was warm before. */
  lemma LeakUndoIff(r: Remote, w: World, k: Slot, w': World)
    requires IsUndo(r, WarmSlot(w, k), [], w') || IsUndo(r, Loaded(r, w, k), [], w')
    ensures w'.warmSlots == w.warmSlots <==> k in w.warmSlots
    ensures w'.warmSlots - w.warmSlots == LeakMarks(w, k).leaked
  {
    assert ColdSlots([]) == {};
    assert k in w'.warmSlots;
  }

  // ----- creations ----------------------------------------------------------------------

  /** A creation: who creates, what is created with which code, and the endowment, if the call type carries one. */
  datatype Creation = Creation(creator: Address, created: Address, code: seq<Byte>, value: Word, pays: bool)

  predicate BothCached(w: World, n: Creation) {
    n.creator in w.accounts && n.created in w.accounts
  }

  /** The endowment moves: there is some, and the creator has it. */
  predicate Endows(w: World, n: Creation)
    requires BothCached(w, n)
  {
    n.value != 0 && n.pays && n.value <= w.accounts[n.creator].value
  }

  /** The accounts after a creation: code and nonce set, then the endowment moved. */
  function Installed(w: World, n: Creation): World
    requires BothCached(w, n)
  {
    var x := WithAccount(w, n.created, w.accounts[n.created].(code := n.code, nonce := 1));
    var src, dst := x.accounts[n.creator].value, x.accounts[n.created].value;
    if !Endows(w, n) then x
    else
      var y := WithAccount(x, n.creator, x.accounts[n.creator].(value := src - n.value));
      WithAccount(y, n.created, y.accounts[n.created].(value := dst + n.value))
  }

  function InstallEntries(w: World, n: Creation): seq<Touch>
    requires BothCached(w, n)
  {
    var src, dst := w.accounts[n.creator].value, w.accounts[n.created].value;
    (if !Endows(w, n) then []
     else [SetValue(n.creator, src, src - n.value), SetValue(n.created, dst, dst + n.value)])
    + [Create(n.created, n.value, 1, n.code)]
  }

  /** What a creation changes, and what it does not. */
  lemma InstalledReads(r: Remote, w: World, n: Creation)
    requires BothCached(w, n)
    ensures var w' := Installed(w, n);
            && w'.(accounts := w.accounts) == w && w'.accounts.Keys == w.accounts.Keys
            && NonceOf(r, w', n.created) == 1 && CodeOf(r, w', n.created) == n.code
            && (forall a :: a != n.created ==>
                  NonceOf(r, w', a) == NonceOf(r, w, a) && CodeOf(r, w', a) == CodeOf(r, w, a))
            && (forall a :: a != n.created && a != n.creator ==> BalanceOf(r, w', a) == BalanceOf(r, w, a))
            && (!Endows(w, n) ==> forall a :: BalanceOf(r, w', a) == BalanceOf(r, w, a))
  {
  }

  /** A creation keeps the total exactly unless an account endows itself, which makes value out of nothing. */
  lemma EndowmentDriftIff(r: Remote, w: World, n: Creation)
    requires BothCached(w, n)
    ensures Drift(r, Installed(w, n)) == Drift(r, w) <==> !Endows(w, n) || n.creator != n.created
    ensures forall s :: CommitMarks(r, s, w, n).lost <==> Drift(r, Installed(w, n)) != Drift(r, w)
  {
    var x := WithAccount(w, n.created, w.accounts[n.created].(code := n.code, nonce := 1));
    DriftKept(r, w, x);
    if Endows(w, n) {
      var y := WithAccount(x, n.creator, x.accounts[n.creator].(value := x.accounts[n.creator].value - n.value));
      DriftShift(r, x, y, n.creator);
      DriftShift(r, y, Installed(w, n), n.created);
    }
  }

  /** Whatever the child's journal says, undo ends with the balances recorded after the child if the endowment
      moved, and with an empty created account if it did not. */
  lemma InstallUndone(r: Remote, w: World, n: Creation, j: seq<Touch>, c: Cell, v: Value)
    requires BothCached(w, n)
    ensures var u, end := Back(j, c, v), Back(InstallEntries(w, n) + j, c, v);
            if Endows(w, n) && (c == Balance(n.creator) || c == Balance(n.created)) then end == Peek(r, w, c)
            else if c == Balance(n.created) || c == Nonce(n.created) then end == Num(0)
            else if c == Code(n.created) then end == Bytes([])
            else end == u
  {
    hide Back;
    var own, u := InstallEntries(w, n), Back(j, c, v);
    var last := Create(n.created, n.value, 1, n.code);
    BackConcat(own, j, c, v);
    BackOne(last, c, u);
    if Endows(w, n) {
      var src, dst := w.accounts[n.creator].value, w.accounts[n.created].value;
      var first, second := SetValue(n.creator, src, src - n.value), SetValue(n.created, dst, dst + n.value);
      assert own == ([first] + [second]) + [last];
      BackConcat([first] + [second], [last], c, u);
      BackConcat([first], [second], c, Undone(last, c, u));
      BackOne(second, c, Undone(last, c, u));
      BackOne(first, c, Undone(second, c, Undone(last, c, u)));
    } else {
      assert own == [last];
    }
  }

  /** The balances a creation makes undo miss: with an endowment, those the child's run changed; without one, a
      balance the created address already had. */
  function MovedByInstall(r: Remote, s: World, w: World, n: Creation): set<Address>
    requires BothCached(w, n)
  {
    if Endows(w, n) then set a | a in {n.creator, n.created} && BalanceOf(r, w, a) != BalanceOf(r, s, a)
    else if BalanceOf(r, s, n.created) != 0 then {n.created}
    else {}
  }

  /** Exact: undoing a creation restores a balance it touched exactly when the address is not marked. */
  lemma EndowmentUndoIff(r: Remote, s: World, w: World, n: Creation, j: seq<Touch>, a: Address, v: Value)
    requires BothCached(w, n) && (a == n.created || (Endows(w, n) && a == n.creator))
    ensures Back(InstallEntries(w, n) + j, Balance(a), v) == Peek(r, s, Balance(a))
            <==> a !in MovedByInstall(r, s, w, n)
  {
    InstallUndone(r, w, n, j, Balance(a), v);
  }

  /** Exact: undoing a creation restores the created nonce and code exactly when the address was fresh. */
  lemma CollisionUndoIff(r: Remote, s: World, w: World, n: Creation, j: seq<Touch>, nonce: Value, code: Value)
    requires BothCached(w, n)
    ensures var all := InstallEntries(w, n) + j;
            (&& Back(all, Nonce(n.created), nonce) == Peek(r, s, Nonce(n.created))
             && Back(all, Code(n.created), code) == Peek(r, s, Code(n.created)))
            <==> Fresh(r, s, n.created)
    ensures Fresh(r, s, n.created) <==> n.created !in CommitMarks(r, s, w, n).collided
  {
    InstallUndone(r, w, n, j, Nonce(n.created), nonce);
    InstallUndone(r, w, n, j, Code(n.created), code);
  }

  /** The marks a creation leaves, for a child that started at `s` and ended at `w`. */
  function CommitMarks(r: Remote, s: World, w: World, n: Creation): Marks
    requires BothCached(w, n)
  {
    Marks({}, if Fresh(r, s, n.created) then {} else {n.created}, MovedByInstall(r, s, w, n),
          Endows(w, n) && n.creator == n.created, {n.created})
  }

  lemma CommitRewinds(r: Remote, s: World, j: seq<Touch>, w: World, g: Marks, n: Creation, c: Cell)
    requires Rewinds(r, s, j, w, g) && BothCached(w, n)
    requires Claimed(Join(g, CommitMarks(r, s, w, n)), c)
    ensures Back(InstallEntries(w, n) + j, c, Peek(r, Installed(w, n), c)) == Peek(r, s, c)
  {
    hide Back, InstallEntries, Installed;
    InstalledReads(r, w, n);
    InstallUndone(r, w, n, j, c, Peek(r, Installed(w, n), c));
    assert Claimed(g, c);
  }

  /** CREATE records its own entries before the child's, although the child ran first.  Everything but what
      is marked still rewinds to the world before the child. */
  lemma CommitSegment(r: Remote, s: World, j: seq<Touch>, w: World, g: Marks, n: Creation)
    requires Tracks(r, s, j, w, g) && BothCached(w, n)
    ensures Tracks(r, s, InstallEntries(w, n) + j, Installed(w, n), Join(g, CommitMarks(r, s, w, n)))
  {
    var own, w', h := InstallEntries(w, n), Installed(w, n), Join(g, CommitMarks(r, s, w, n));
    forall c | Claimed(h, c) ensures Back(own + j, c, Peek(r, w', c)) == Peek(r, s, c) {
      CommitRewinds(r, s, j, w, g, n, c);
    }
    assert forall t :: t in own ==> (t.SetValue? && t.addr in w.accounts) || (t.Create? && t.addr == n.created);
    InstalledReads(r, w, n);
    EndowmentDriftIff(r, w, n);
    hide Installed, InstallEntries;
    assert ColdSlots(own + j) == ColdSlots(j);
    assert Warmed(own + j) == Warmed(j);
  }

  // ----- the failing inputs -------------------------------------------------------------

  /** A child that is tracked faithfully, and whose creation is not undone faithfully: account 2 pays the creator 5
      while the created account's code runs.  After undo the creator holds 15 instead of 10, account 2 has its 5
      back, and so the total has grown by 5. */
  lemma EndowmentUndoFails(r: Remote)
    ensures var start := World(map[1 := Account(10, 1, []), 2 := Account(5, 1, []), 3 := Account(0, 0, [])],
                               Cache(map[], map[]), map[], {}, {});
            var end := Transferred(r, start, 2, 1, 5);
            var j := [SetValue(2, 5, 0), SetValue(1, 10, 15)];
            var n := Creation(1, 3, [], 1, true);
            && Tracks(r, start, j, end, CLEAN)
            && Back(InstallEntries(end, n) + j, Balance(1), Peek(r, Installed(end, n), Balance(1))) == Num(15)
            && Back(InstallEntries(end, n) + j, Balance(2), Peek(r, Installed(end, n), Balance(2))) == Num(5)
            && Peek(r, start, Balance(1)) == Num(10)
  {
    hide Tracks, Back;
    var start := World(map[1 := Account(10, 1, []), 2 := Account(5, 1, []), 3 := Account(0, 0, [])],
                       Cache(map[], map[]), map[], {}, {});
    TransferSegment(r, start, 2, 1, 5);
    var end := Transferred(r, start, 2, 1, 5);
    var j, n := [SetValue(2, 5, 0), SetValue(1, 10, 15)], Creation(1, 3, [], 1, true);
    InstallUndone(r, end, n, j, Balance(1), Peek(r, Installed(end, n), Balance(1)));
    InstallUndone(r, end, n, j, Balance(2), Peek(r, Installed(end, n), Balance(2)));
    BackTwo(SetValue(2, 5, 0), SetValue(1, 10, 15), Balance(2), Peek(r, Installed(end, n), Balance(2)));
  }

  lemma BackTwo(s: Touch, t: Touch, c: Cell, v: Value)
    ensures Back([s, t], c, v) == Undone(s, c, Undone(t, c, v))
  {
    assert [s, t] == [s] + [t];
    BackConcat([s], [t], c, v);
    BackOne(t, c, v);
    BackOne(s, c, Undone(t, c, v));
  }

  /** A creation over deployed code, then undone, leaves neither code nor nonce. */
  lemma CollisionUndoFails(r: Remote)
    ensures var start := World(map[1 := Account(0, 1, []), 2 := Account(0, 1, [0x5b])],
                               Cache(map[], map[]), map[], {}, {});
            var n := Creation(1, 2, [0x00], 0, true);
            && Back(InstallEntries(start, n) + [], Code(2), Peek(r, Installed(start, n), Code(2))) == Bytes([])
            && Back(InstallEntries(start, n) + [], Nonce(2), Peek(r, Installed(start, n), Nonce(2))) == Num(0)
            && Peek(r, start, Code(2)) == Bytes([0x5b]) && Peek(r, start, Nonce(2)) == Num(1)
  {
    var start := World(map[1 := Account(0, 1, []), 2 := Account(0, 1, [0x5b])], Cache(map[], map[]), map[], {}, {});
    var n := Creation(1, 2, [0x00], 0, true);
    InstallUndone(r, start, n, [], Code(2), Peek(r, Installed(start, n), Code(2)));
    InstallUndone(r, start, n, [], Nonce(2), Peek(r, Installed(start, n), Nonce(2)));
  }

  /** Undoing a frame moves the total by exactly what the marked accounts have gained by it. */
  lemma TotalAfterUndo(r: Remote, s: World, j: seq<Touch>, w: World, g: Marks, w': World)
    requires Tracks(r, s, j, w, g) && IsUndo(r, w, j, w')
    ensures Drift(r, w') == Drift(r, s) + Gain(r, s, w', g.moved)
    ensures Drift(r, w') == Drift(r, s) <==> Gain(r, s, w', g.moved) == 0
  {
    FailedFrame(r, s, j, w, g, w');
    AgreeOnAccounts(r, s, w', g);
    DriftByGain(r, s, w', g.moved);
  }
}
