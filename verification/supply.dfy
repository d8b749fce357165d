/** The total of all balances, measured as its drift from the remote snapshot's total: accounts
    that were never cached, or were cached untouched, contribute nothing. */
module Supply {
  import opened Types
  import opened State

  function Deviation(r: Remote, w: World, a: Address): int {
    BalanceOf(r, w, a) - r.account(a).value
  }

  ghost function DriftOver(r: Remote, w: World, s: set<Address>): int {
    if s == {} then 0 else
    var a :| a in s;
    Deviation(r, w, a) + DriftOver(r, w, s - {a})
  }

  /** Total balance now minus total balance in the snapshot. */
  ghost function Drift(r: Remote, w: World): int {
    DriftOver(r, w, w.accounts.Keys)
  }

  lemma {:induction false} DriftPick(r: Remote, w: World, s: set<Address>, a: Address)
    requires a in s
    ensures DriftOver(r, w, s) == Deviation(r, w, a) + DriftOver(r, w, s - {a})
    decreases |s|
  {
    var b :| b in s && DriftOver(r, w, s) == Deviation(r, w, b) + DriftOver(r, w, s - {b});
    if b != a {
      DriftPick(r, w, s - {b}, a);
      DriftPick(r, w, s - {a}, b);
      assert s - {a} - {b} == s - {b} - {a};
    }
  }

  lemma {:induction false} DriftSame(r: Remote, w: World, w': World, s: set<Address>)
    requires forall a :: a in s ==> BalanceOf(r, w, a) == BalanceOf(r, w', a)
    ensures DriftOver(r, w, s) == DriftOver(r, w', s)
    decreases |s|
  {
    if s != {} {
      var a :| a in s;
      DriftPick(r, w, s, a);
      DriftPick(r, w', s, a);
      DriftSame(r, w, w', s - {a});
    }
  }

  lemma {:induction false} DriftGrow(r: Remote, w: World, s: set<Address>, t: set<Address>)
    requires s <= t
    requires forall a :: a in t - s ==> Deviation(r, w, a) == 0
    ensures DriftOver(r, w, t) == DriftOver(r, w, s)
    decreases |t - s|
  {
    if t - s != {} {
      var a :| a in t - s;
      DriftPick(r, w, t, a);
      assert (t - {a}) - s == (t - s) - {a};
      DriftGrow(r, w, s, t - {a});
    } else {
      assert s == t;
    }
  }

  /** Changing one balance moves the total by exactly that much. */
  lemma DriftShift(r: Remote, w: World, w': World, a: Address)
    requires w.accounts.Keys <= w'.accounts.Keys && a in w'.accounts
    requires forall b :: b != a ==> BalanceOf(r, w, b) == BalanceOf(r, w', b)
    ensures Drift(r, w') == Drift(r, w) + BalanceOf(r, w', a) - BalanceOf(r, w, a)
  {
    var all := w'.accounts.Keys;
    DriftGrow(r, w, w.accounts.Keys, all);
    DriftPick(r, w, all, a);
    DriftPick(r, w', all, a);
    DriftSame(r, w, w', all - {a});
  }

  /** Equal balances, equal totals, even when more accounts are cached. */
  lemma DriftKept(r: Remote, w: World, w': World)
    requires w.accounts.Keys <= w'.accounts.Keys
    requires forall b :: BalanceOf(r, w, b) == BalanceOf(r, w', b)
    ensures Drift(r, w') == Drift(r, w)
  {
    DriftGrow(r, w, w.accounts.Keys, w'.accounts.Keys);
    DriftSame(r, w, w', w'.accounts.Keys);
  }

  /** How much more the accounts in `s` hold in `w'` than in `w`. */
  ghost function Gain(r: Remote, w: World, w': World, s: set<Address>): int {
    DriftOver(r, w', s) - DriftOver(r, w, s)
  }

  lemma {:induction false} DriftSplit(r: Remote, w: World, s: set<Address>, t: set<Address>)
    requires t <= s
    ensures DriftOver(r, w, s) == DriftOver(r, w, t) + DriftOver(r, w, s - t)
    decreases |t|
  {
    if t == {} {
      assert s - t == s;
    } else {
      var a :| a in t;
      DriftPick(r, w, s, a);
      DriftPick(r, w, t, a);
      DriftSplit(r, w, s - {a}, t - {a});
      assert (s - {a}) - (t - {a}) == s - t;
    }
  }

  /** The total moves by exactly what the accounts that may differ have gained. */
  lemma DriftByGain(r: Remote, w: World, w': World, differ: set<Address>)
    requires w.accounts.Keys <= w'.accounts.Keys
    requires forall a :: a !in differ ==> BalanceOf(r, w, a) == BalanceOf(r, w', a)
    ensures Drift(r, w') == Drift(r, w) + Gain(r, w, w', differ)
  {
    var all := w'.accounts.Keys + differ;
    DriftGrow(r, w, w.accounts.Keys, all);
    DriftGrow(r, w', w'.accounts.Keys, all);
    DriftSplit(r, w, all, differ);
    DriftSplit(r, w', all, differ);
    DriftSame(r, w, w', all - differ);
  }
}
