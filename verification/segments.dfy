/** The journal segment of every state change the interpreter makes, each with the world before and
    after it.  A frame's journal is a concatenation of these. */
module Segments {
  import opened Types
  import opened State
  import opened Supply
  import opened Journal

  function WithAccount(w: World, a: Address, acc: Account): World {
    w.(accounts := w.accounts[a := acc])
  }

  function WithBalance(r: Remote, w: World, a: Address, v: Word): World {
    WithAccount(w, a, AccountOf(r, w, a).(value := v))
  }

  function WithNonce(r: Remote, w: World, a: Address, n: Word): World {
    WithAccount(w, a, AccountOf(r, w, a).(nonce := n))
  }

  function WarmAddress(w: World, a: Address): World {
    w.(warmAddresses := w.warmAddresses + {a})
  }

  function WarmSlot(w: World, k: Slot): World {
    w.(warmSlots := w.warmSlots + {k})
  }

  /** The slot is warmed and its value fetched, as SLOAD and SSTORE do. */
  function Loaded(r: Remote, w: World, k: Slot): World {
    WarmSlot(w, k).(cache := Fetch(true, r.storage, w.cache, k))
  }

  function Stored(r: Remote, w: World, k: Slot, v: Word): World {
    var x := Loaded(r, w, k);
    x.(cache := x.cache.(state := x.cache.state[k := v]))
  }

  lemma QuietSegment(r: Remote, w: World, w': World)
    requires w'.(accounts := w.accounts) == w
    requires w.accounts.Keys <= w'.accounts.Keys
    requires forall a :: AccountOf(r, w', a) == AccountOf(r, w, a)
    ensures Tracks(r, w, [], w', CLEAN)
  {
    DriftKept(r, w, w');
  }

  lemma PullSegment(r: Remote, w: World, a: Address)
    ensures Tracks(r, w, [], Pull(r, w, a), CLEAN)
  {
    QuietSegment(r, w, Pull(r, w, a));
  }

  /** Pulling one more account changes nothing a segment promises. */
  lemma ThenPull(r: Remote, s: World, j: seq<Touch>, w: World, g: Marks, a: Address)
    requires Tracks(r, s, j, w, g)
    ensures Tracks(r, s, j, Pull(r, w, a), g)
  {
    PullSegment(r, w, a);
    TracksConcat(r, s, j, w, g, [], Pull(r, w, a), CLEAN);
    assert j + [] == j;
    assert Join(g, CLEAN) == g;
  }

  /** Entries that only report what was seen, or what was paid. */
  lemma InertSegment(r: Remote, w: World, t: Touch)
    requires t.Noop? || t.FeePay? || t.GetNonce? || t.GetValue? || t.GetCode?
    ensures Tracks(r, w, [t], w, CLEAN)
  {
    forall c { BackOne(t, c, Peek(r, w, c)); }
  }

  lemma WarmUpSegment(r: Remote, w: World, a: Address)
    requires a !in w.warmAddresses
    ensures Tracks(r, w, [WarmUp(a)], WarmAddress(w, a), CLEAN)
  {
    var w' := WarmAddress(w, a);
    assert Warmed([WarmUp(a)]) == {a} by { assert WarmUp(a) in [WarmUp(a)]; }
    forall c ensures Back([WarmUp(a)], c, Peek(r, w', c)) == Peek(r, w, c) {
      BackOne(WarmUp(a), c, Peek(r, w', c));
    }
    DriftKept(r, w, w');
  }

  lemma ColdOne(t: Touch)
    requires t.GetState? || t.SetState?
    ensures ColdSlots([t]) == if t.isWarm then {} else {t.slot}
    ensures Warmed([t]) == {}
  {
    assert t in [t];
  }

  lemma SloadSegment(r: Remote, w: World, k: Slot, v: Word)
    ensures Tracks(r, w, [GetState(k, v, k in w.warmSlots)], Loaded(r, w, k), CLEAN)
  {
    var t, w' := GetState(k, v, k in w.warmSlots), Loaded(r, w, k);
    ColdOne(t);
    forall c ensures Back([t], c, Peek(r, w', c)) == Peek(r, w, c) {
      BackOne(t, c, Peek(r, w', c));
    }
    DriftKept(r, w, w');
  }

  /** A store records the value it replaced; undoing it also forgets the warmth it bought. */
  lemma SstoreSegment(r: Remote, w: World, k: Slot, next: Word)
    ensures Tracks(r, w, [SetState(k, Read(r.storage, w.cache, k), next, k in w.warmSlots)],
                   Stored(r, w, k, next), CLEAN)
  {
    var t, w' := SetState(k, Read(r.storage, w.cache, k), next, k in w.warmSlots), Stored(r, w, k, next);
    ColdOne(t);
    forall c ensures Back([t], c, Peek(r, w', c)) == Peek(r, w, c) {
      BackOne(t, c, Peek(r, w', c));
    }
    DriftKept(r, w, w');
  }

  /** An SLOAD or SSTORE that halts has warmed its slot, perhaps fetched it, and recorded nothing. */
  lemma LeakSegment(r: Remote, w: World, k: Slot, w': World)
    requires w' == WarmSlot(w, k) || w' == Loaded(r, w, k)
    ensures Tracks(r, w, [], w', CLEAN.(leaked := {k} - w.warmSlots))
  {
    DriftKept(r, w, w');
  }

  lemma TstoreSegment(r: Remote, w: World, k: Slot, v: Word)
    ensures var previous := if k in w.transient then w.transient[k] else 0;
            Tracks(r, w, [SetTransientState(k, previous, v)], w.(transient := w.transient[k := v]), CLEAN)
  {
    var previous := if k in w.transient then w.transient[k] else 0;
    var t, w' := SetTransientState(k, previous, v), w.(transient := w.transient[k := v]);
    forall c ensures Back([t], c, Peek(r, w', c)) == Peek(r, w, c) {
      BackOne(t, c, Peek(r, w', c));
    }
    DriftKept(r, w, w');
  }

  lemma TransferRewinds(r: Remote, w: World, w': World, s: Touch, t: Touch)
    requires s.SetValue? && t.SetValue? && s.addr != t.addr
    requires s.val == BalanceOf(r, w, s.addr) && t.val == BalanceOf(r, w, t.addr)
    requires forall c :: c != Balance(s.addr) && c != Balance(t.addr) ==> Peek(r, w', c) == Peek(r, w, c)
    ensures Rewinds(r, w, [s, t], w', CLEAN)
  {
    forall c ensures Back([s, t], c, Peek(r, w', c)) == Peek(r, w, c) {
      BackOne(t, c, Peek(r, w', c));
      BackOne(s, c, Undone(t, c, Peek(r, w', c)));
      BackConcat([s], [t], c, Peek(r, w', c));
      assert [s] + [t] == [s, t];
    }
  }

  /** The world after moving `v` from `a` to `b`. */
  function Transferred(r: Remote, w: World, a: Address, b: Address, v: Word): World
    requires v <= BalanceOf(r, w, a)
  {
    var x := WithBalance(r, w, a, BalanceOf(r, w, a) - v);
    WithBalance(r, x, b, BalanceOf(r, w, b) + v)
  }

  /** What a transfer changes, and what it does not. */
  lemma TransferDrift(r: Remote, w: World, a: Address, b: Address, v: Word)
    requires a != b && v <= BalanceOf(r, w, a)
    ensures var w' := Transferred(r, w, a, b, v);
            && Drift(r, w') == Drift(r, w) && w'.(accounts := w.accounts) == w
            && w'.accounts.Keys == w.accounts.Keys + {a, b}
            && (forall c :: c != Balance(a) && c != Balance(b) ==> Peek(r, w', c) == Peek(r, w, c))
            && (forall d :: NonceOf(r, w', d) == NonceOf(r, w, d) && CodeOf(r, w', d) == CodeOf(r, w, d))
  {
    var x := WithBalance(r, w, a, BalanceOf(r, w, a) - v);
    DriftShift(r, w, x, a);
    DriftShift(r, x, Transferred(r, w, a, b, v), b);
  }

  /** A value transfer, journaled debit first, moves nothing in total. */
  lemma TransferSegment(r: Remote, w: World, a: Address, b: Address, v: Word)
    requires a != b && v <= BalanceOf(r, w, a)
    ensures Tracks(r, w, [SetValue(a, BalanceOf(r, w, a), BalanceOf(r, w, a) - v),
                          SetValue(b, BalanceOf(r, w, b), BalanceOf(r, w, b) + v)],
                   Transferred(r, w, a, b, v), CLEAN)
  {
    var w' := Transferred(r, w, a, b, v);
    TransferDrift(r, w, a, b, v);
    hide Transferred, Drift;
    TransferRewinds(r, w, w', SetValue(a, BalanceOf(r, w, a), BalanceOf(r, w, a) - v),
                    SetValue(b, BalanceOf(r, w, b), BalanceOf(r, w, b) + v));
  }

  lemma NonceSegment(r: Remote, w: World, a: Address)
    ensures var n := NonceOf(r, w, a);
            Tracks(r, w, [SetNonce(a, n, n + 1)], WithNonce(r, w, a, n + 1), CLEAN.(nonces := {a}))
  {
    var n := NonceOf(r, w, a);
    var t, w' := SetNonce(a, n, n + 1), WithNonce(r, w, a, n + 1);
    forall c ensures Back([t], c, Peek(r, w', c)) == Peek(r, w, c) {
      BackOne(t, c, Peek(r, w', c));
    }
    DriftKept(r, w, w');
  }

  /** What `get` makes of a world whose slot was just warmed. */
  lemma PullAfterFetch(r: Remote, w: World, k: Slot)
    ensures Pull(r, WarmSlot(w, k), k.addr).(cache := Fetch(true, r.storage, WarmSlot(w, k).cache, k))
         == Pull(r, Loaded(r, w, k), k.addr)
    ensures Pull(r, Loaded(r, w, k), k.addr).cache == Fetch(true, r.storage, w.cache, k)
    ensures k in Fetch(true, r.storage, w.cache, k).original
  {
  }

  lemma PullAfterStore(r: Remote, w: World, k: Slot, v: Word)
    ensures var c := Fetch(true, r.storage, w.cache, k).(state := Fetch(true, r.storage, w.cache, k).state[k := v]);
            Pull(r, Stored(r, w, k, v), k.addr) == Pull(r, Loaded(r, w, k), k.addr).(cache := c)
  {
  }
}
