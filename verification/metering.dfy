/** SSTORE cost and refund (EIP-2200, EIP-3529) and what they add up to. */
module Metering {
  import opened Types
  import opened State

  /** Gas charged for storing `next` over `val` in a slot that held `original` at transaction start. */
  function Cost(original: Word, val: Word, next: Word, isWarm: bool): nat {
    var base :=
      if val == next then 100
      else if val == original then if original == 0 then 20_000 else 2900
      else 100;
    if isWarm then base else base + 2100
  }

  /** Change of the refund counter, possibly negative. */
  function Refund(original: Word, val: Word, next: Word): int {
    if next == val then 0
    else if val == original then if original != 0 && next == 0 then 4800 else 0
    else
      var clearing :=
        if original == 0 then 0
        else if val == 0 then -4800
        else if next == 0 then 4800 else 0;
      var resetting :=
        if next != original then 0
        else if original == 0 then 20_000 - 100 else 5000 - 2100 - 100;
      clearing + resetting
  }

  // ----- net metering over one slot -----------------------------------------------------

  /** The slot's value after the stores `news`, starting from `val`. */
  function Final(val: Word, news: seq<Word>): Word {
    if news == [] then val else news[|news| - 1]
  }

  /** Total cost minus total refund of a run of stores to one slot; the first store warms it. */
  function Net(original: Word, isWarm: bool, news: seq<Word>): int {
    if news == [] then 0
    else
      var front := news[..|news| - 1];
      var val := Final(original, front);
      Net(original, isWarm, front)
        + Cost(original, val, news[|news| - 1], isWarm || front != [])
        - Refund(original, val, news[|news| - 1])
  }

  /** What a slot ending at `final` is worth, whatever happened in between. */
  function Outcome(original: Word, final: Word): int {
    if final == original then 0
    else if original == 0 then 19_900
    else if final == 0 then 2800 - 4800
    else 2800
  }

  /** A transaction pays 100 per store, the cold surcharge once, and the outcome: nothing else about
      the path matters. */
  lemma {:induction false} NetIsPathIndependent(original: Word, isWarm: bool, news: seq<Word>)
    ensures Net(original, isWarm, news)
         == 100 * |news| + (if isWarm || news == [] then 0 else 2100) + Outcome(original, Final(original, news))
  {
    if news != [] {
      NetIsPathIndependent(original, isWarm, news[..|news| - 1]);
    }
  }

  // ----- the refund counter -------------------------------------------------------------

  /** Slots that started non-zero and read zero now. */
  ghost function Cleared(base: Slot -> Word, c: Cache): set<Slot> {
    set k | k in c.original && c.original[k] != 0 && Read(base, c, k) == 0
  }

  ghost function ClearedRefund(base: Slot -> Word, c: Cache): int {
    4800 * |Cleared(base, c)|
  }

  /** The part of a refund that pays for putting the original value back. */
  function ResetRefund(original: Word, val: Word, next: Word): nat {
    if next == val || val == original || next != original then 0
    else if original == 0 then 19_900 else 2800
  }

  function Clears(original: Word, v: Word): nat {
    if original != 0 && v == 0 then 1 else 0
  }

  lemma ClearedWithout(base: Slot -> Word, c: Cache, k: Slot)
    requires k in c.original
    ensures |Cleared(base, c)| == |Cleared(base, c) - {k}| + Clears(c.original[k], Read(base, c, k))
  {
    if k in Cleared(base, c) {
      assert Cleared(base, c) == (Cleared(base, c) - {k}) + {k};
    } else {
      assert Cleared(base, c) == Cleared(base, c) - {k};
    }
  }

  lemma RefundSplits(original: Word, val: Word, next: Word)
    ensures Refund(original, val, next)
         == 4800 * (Clears(original, next) - Clears(original, val)) + ResetRefund(original, val, next)
  {
  }

  /** Every store moves the refund counter by exactly the change in cleared slots, plus a reset. */
  lemma StoreMovesRefund(base: Slot -> Word, c: Cache, k: Slot, next: Word)
    requires k in c.original
    ensures var original, val := c.original[k], Read(base, c, k);
            Refund(original, val, next)
              == ClearedRefund(base, c.(state := c.state[k := next])) - ClearedRefund(base, c)
                 + ResetRefund(original, val, next)
  {
    var d := c.(state := c.state[k := next]);
    ClearedWithout(base, c, k);
    ClearedWithout(base, d, k);
    assert Cleared(base, d) - {k} == Cleared(base, c) - {k};
    RefundSplits(c.original[k], Read(base, c, k), next);
  }

  /** Fetching a slot clears nothing. */
  lemma FetchKeepsCleared(base: Slot -> Word, c: Cache, k: Slot)
    ensures Cleared(base, Fetch(true, base, c, k)) == Cleared(base, c)
  {
  }

  /** Two caches of one transaction that read alike have cleared the same slots, however many more
      originals one of them has recorded. */
  lemma SameReadsSameCleared(base: Slot -> Word, atStart: Cache, c: Cache, d: Cache)
    requires Originals(base, atStart, c) && Originals(base, atStart, d)
    requires forall k :: Read(base, c, k) == Read(base, d, k)
    ensures Cleared(base, c) == Cleared(base, d)
  {
    forall k ensures k in Cleared(base, c) <==> k in Cleared(base, d) {
      if k in c.original && k !in d.original {
        assert Read(base, d, k) == Read(base, atStart, k);
      }
      if k in d.original && k !in c.original {
        assert Read(base, c, k) == Read(base, atStart, k);
      }
    }
  }
}
