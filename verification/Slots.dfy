/** Inventory slots and the two swaps between them (protocol/Structures.hpp). */
module Slots {

  datatype Item = Item(present: bool, itemID: int, itemCount: int)

  const EMPTY := Item(false, 0, 0)

  /** Counts are 0 to 64, and an absent slot is zeroed. */
  predicate Ok(s: Item) {
    0 <= s.itemCount <= 64 && (!s.present ==> s == EMPTY)
  }

  predicate FitsInt8(n: int) { -128 <= n <= 127 }

  /** The full swap: two stacks of one item are merged, anything else is exchanged. */
  function Swapped(a: Item, b: Item): (Item, Item) {
    if a.itemID == b.itemID && a.itemID != 0 then
      if a.itemCount + b.itemCount > 64 then (a.(itemCount := 64), b.(itemCount := a.itemCount + b.itemCount - 64))
      else (a.(itemCount := a.itemCount + b.itemCount), EMPTY)
    else (b, a)
  }

  /** The partial swap: `x` items go over, as far as they fit; it is a full swap when that makes no sense. */
  function Moved(a: Item, b: Item, x: int): (Item, Item) {
    if (a.present && b.present && a.itemID != b.itemID) || a.itemCount <= x then Swapped(a, b)
    else
      var over := if b.itemCount + x > 64 then b.itemCount + x - 64 else 0;
      (a.(itemCount := a.itemCount - x + over), Item(true, a.itemID, b.itemCount + x - over))
  }

  function CountOf(s: Item, id: int): int {
    if s.itemID == id then s.itemCount else 0
  }

  lemma SwapConserves(a: Item, b: Item, id: int)
    requires Ok(a) && Ok(b)
    ensures Ok(Swapped(a, b).0) && Ok(Swapped(a, b).1)
    ensures CountOf(Swapped(a, b).0, id) + CountOf(Swapped(a, b).1, id) == CountOf(a, id) + CountOf(b, id)
  {}

  /** What a full swap does: two stacks of one item become one of up to 64 and the rest; anything else changes
      places. */
  lemma SwapInNumbers(a: Item, b: Item)
    requires Ok(a) && Ok(b)
    ensures a.itemID != b.itemID || a.itemID == 0 ==> Swapped(a, b) == (b, a) && Swapped(b, a) == (a, b)
    ensures a.itemID == b.itemID != 0 ==>
              var (c, d) := Swapped(a, b);
              var all := a.itemCount + b.itemCount;
              && c.itemID == a.itemID && c.present == a.present
              && c.itemCount == (if all > 64 then 64 else all) && d.itemCount == (if all > 64 then all - 64 else 0)
  {}

  /** What a partial swap does when there is enough: as many as asked for go over, or as many as there is room for. */
  lemma MoveInNumbers(a: Item, b: Item, x: nat)
    requires Ok(a) && Ok(b) && x < a.itemCount && (!b.present || a.itemID == b.itemID)
    ensures var (c, d) := Moved(a, b, x);
            var moved := if b.itemCount + x <= 64 then x else 64 - b.itemCount;
            && c.itemID == d.itemID == a.itemID && d.present
            && c.itemCount == a.itemCount - moved && d.itemCount == b.itemCount + moved
  {}

  /** Nothing is lost or made, no slot overflows, and the 8-bit sums on the way do not either. */
  lemma MoveConserves(a: Item, b: Item, x: nat, id: int)
    requires Ok(a) && Ok(b)
    ensures Ok(Moved(a, b, x).0) && Ok(Moved(a, b, x).1)
    ensures CountOf(Moved(a, b, x).0, id) + CountOf(Moved(a, b, x).1, id) == CountOf(a, id) + CountOf(b, id)
    ensures x < a.itemCount ==>
              FitsInt8(a.itemCount - x) && FitsInt8(b.itemCount + x) && FitsInt8(a.itemCount + b.itemCount - 64)
  {
    SwapConserves(a, b, id);
  }

  /** The full swap of a slot with itself: a stack merges with its own copy, and one of the two is then the slot. */
  function SelfSwapped(s: Item): Item {
    if s.itemID == 0 then s
    else if 2 * s.itemCount > 64 then s.(itemCount := 2 * s.itemCount - 64)
    else EMPTY
  }

  /** The partial swap of a slot with itself. */
  function SelfMoved(s: Item, x: int): Item {
    if s.itemCount <= x then SelfSwapped(s)
    else s.(present := true, itemCount := if s.itemCount > 64 then 64 else s.itemCount)
  }

  /** A full swap of a slot with itself conserves exactly for no item, an empty stack or a full one. */
  lemma SelfSwapConservesIff(s: Item)
    requires Ok(s)
    ensures (forall id: int :: CountOf(SelfSwapped(s), id) == CountOf(s, id))
            <==> s.itemID == 0 || s.itemCount == 0 || s.itemCount == 64
  {
    assert CountOf(s, s.itemID) == s.itemCount;
    assert s.itemID != 0 && 2 * s.itemCount <= 64 ==> CountOf(SelfSwapped(s), s.itemID) == 0;
    assert s.itemID != 0 && 2 * s.itemCount > 64 ==> CountOf(SelfSwapped(s), s.itemID) == 2 * s.itemCount - 64;
  }

  /** A partial one does so, besides, whenever fewer items are asked for than there are. */
  lemma SelfMoveConservesIff(s: Item, x: int)
    requires Ok(s)
    ensures (forall id: int :: CountOf(SelfMoved(s, x), id) == CountOf(s, id))
            <==> x < s.itemCount || s.itemID == 0 || s.itemCount == 0 || s.itemCount == 64
  {
    SelfSwapConservesIff(s);
  }

  class Slot {
    var present: bool
    var itemID: int
    var itemCount: int

    function Value(): Item
      reads this
    {
      Item(present, itemID, itemCount)
    }

    constructor ()
      ensures Value() == EMPTY
    {
      present, itemID, itemCount := false, 0, 0;
    }

    method Reset()
      modifies this
      ensures Value() == EMPTY
    {
      present, itemID, itemCount := false, 0, 0;
    }

    /** Between two slots, or of a slot with itself. */
    method Swap(other: Slot)
      modifies this, other
      ensures this != other ==> (Value(), other.Value()) == Swapped(old(Value()), old(other.Value()))
      ensures this == other ==> Value() == SelfSwapped(old(Value()))
    {
      if itemID == other.itemID && itemID != 0 {
        var rest := itemCount + other.itemCount - 64;
        if rest > 0 {
          itemCount := 64;
          other.itemCount := rest;
          return;
        }
        itemCount := itemCount + other.itemCount;
        other.Reset();
        return;
      }
      present, itemID, itemCount, other.present, other.itemID, other.itemCount :=
        other.present, other.itemID, other.itemCount, present, itemID, itemCount;
    }

    method SwapSome(other: Slot, x: int)
      modifies this, other
      ensures this != other ==> (Value(), other.Value()) == Moved(old(Value()), old(other.Value()), x)
      ensures this == other ==> Value() == SelfMoved(old(Value()), x)
    {
      if present && other.present && itemID != other.itemID {
        Swap(other);
        return;
      }
      if itemCount <= x {
        Swap(other);
        return;
      }
      other.present := true;
      other.itemID := itemID;
      itemCount := itemCount - x;
      other.itemCount := other.itemCount + x;
      if other.itemCount > 64 {
        itemCount := itemCount + other.itemCount - 64;
        other.itemCount := 64;
      }
    }
  }

  // ----- Whole runs over an inventory -----

  datatype Click = Full(i: nat, j: nat) | Some(i: nat, j: nat, x: nat)

  predicate Legal(n: nat, c: Click) {
    c.i < n && c.j < n
  }

  /** A click on two slots, or on one slot twice. */
  function After(inv: seq<Item>, c: Click): (r: seq<Item>)
    requires Legal(|inv|, c)
    ensures |r| == |inv|
  {
    if c.i == c.j then inv[c.i := if c.Full? then SelfSwapped(inv[c.i]) else SelfMoved(inv[c.i], c.x)]
    else
      var (a, b) := if c.Full? then Swapped(inv[c.i], inv[c.j]) else Moved(inv[c.i], inv[c.j], c.x);
      inv[c.i := a][c.j := b]
  }

  /** A click on one slot twice does no harm when it asks for fewer items than there are, or finds no item, none of it
      or 64. */
  predicate Harmless(inv: seq<Item>, c: Click)
    requires Legal(|inv|, c)
  {
    var s := inv[c.i];
    c.i == c.j ==> (c.Some? && c.x < s.itemCount) || s.itemID == 0 || s.itemCount == 0 || s.itemCount == 64
  }

  function Run(inv: seq<Item>, clicks: seq<Click>): (r: seq<Item>)
    requires forall k :: 0 <= k < |clicks| ==> Legal(|inv|, clicks[k])
    ensures |r| == |inv|
  {
    if clicks == [] then inv else After(Run(inv, clicks[..|clicks| - 1]), clicks[|clicks| - 1])
  }

  function Total(inv: seq<Item>, id: int): int {
    if inv == [] then 0 else Total(inv[..|inv| - 1], id) + CountOf(inv[|inv| - 1], id)
  }

  lemma {:induction false} TotalAfterOne(inv: seq<Item>, i: nat, s: Item, id: int)
    requires i < |inv|
    ensures Total(inv[i := s], id) == Total(inv, id) - CountOf(inv[i], id) + CountOf(s, id)
  {
    var last := |inv| - 1;
    if i < last {
      TotalAfterOne(inv[..last], i, s, id);
      assert inv[i := s][..last] == inv[..last][i := s];
    } else {
      assert inv[i := s][..last] == inv[..last];
    }
  }

  predicate AllOk(inv: seq<Item>) {
    forall k :: 0 <= k < |inv| ==> Ok(inv[k])
  }

  /** No total of `r` is above that of `inv`. */
  ghost predicate NothingMade(inv: seq<Item>, r: seq<Item>) {
    forall id: int :: Total(r, id) <= Total(inv, id)
  }

  ghost predicate AllKept(inv: seq<Item>, r: seq<Item>) {
    forall id: int :: Total(r, id) == Total(inv, id)
  }

  lemma SelfClick(inv: seq<Item>, c: Click)
    requires Legal(|inv|, c) && AllOk(inv) && c.i == c.j
    ensures AllOk(After(inv, c)) && NothingMade(inv, After(inv, c))
    ensures AllKept(inv, After(inv, c)) <==> Harmless(inv, c)
  {
    var s := inv[c.i];
    var t := if c.Full? then SelfSwapped(s) else SelfMoved(s, c.x);
    SelfSwapConservesIff(s);
    if c.Some? { SelfMoveConservesIff(s, c.x); }
    forall id: int ensures Total(After(inv, c), id) == Total(inv, id) - CountOf(s, id) + CountOf(t, id) {
      TotalAfterOne(inv, c.i, t, id);
    }
    if AllKept(inv, After(inv, c)) {
      forall id: int ensures CountOf(t, id) == CountOf(s, id) {
        assert Total(After(inv, c), id) == Total(inv, id);
      }
    }
  }

  lemma OtherClick(inv: seq<Item>, c: Click)
    requires Legal(|inv|, c) && AllOk(inv) && c.i != c.j
    ensures AllOk(After(inv, c)) && AllKept(inv, After(inv, c))
  {
    hide Swapped, Moved, CountOf, Total;
    var (a, b) := if c.Full? then Swapped(inv[c.i], inv[c.j]) else Moved(inv[c.i], inv[c.j], c.x);
    SwapConserves(inv[c.i], inv[c.j], 0);
    if c.Some? { MoveConserves(inv[c.i], inv[c.j], c.x, 0); }
    forall id: int ensures Total(After(inv, c), id) == Total(inv, id) {
      SwapConserves(inv[c.i], inv[c.j], id);
      if c.Some? { MoveConserves(inv[c.i], inv[c.j], c.x, id); }
      TotalAfterOne(inv, c.i, a, id);
      TotalAfterOne(inv[c.i := a], c.j, b, id);
    }
  }

  /** Every click on one slot twice is harmless where it happens. */
  ghost predicate HarmlessThroughout(inv: seq<Item>, clicks: seq<Click>)
    requires forall k :: 0 <= k < |clicks| ==> Legal(|inv|, clicks[k])
  {
    forall k :: 0 <= k < |clicks| ==> HarmlessAt(inv, clicks, k)
  }

  predicate HarmlessAt(inv: seq<Item>, clicks: seq<Click>, k: nat)
    requires k < |clicks| && forall k :: 0 <= k < |clicks| ==> Legal(|inv|, clicks[k])
  {
    Harmless(Run(inv, clicks[..k]), clicks[k])
  }

  lemma HarmlessFront(inv: seq<Item>, clicks: seq<Click>)
    requires clicks != [] && forall k :: 0 <= k < |clicks| ==> Legal(|inv|, clicks[k])
    ensures var front, c := clicks[..|clicks| - 1], clicks[|clicks| - 1];
            HarmlessThroughout(inv, clicks) <==> HarmlessThroughout(inv, front) && Harmless(Run(inv, front), c)
  {
    hide Harmless, Run;
    var front := clicks[..|clicks| - 1];
    forall k | 0 <= k < |front| ensures HarmlessAt(inv, front, k) <==> HarmlessAt(inv, clicks, k) {
      assert front[..k] == clicks[..k];
    }
    assert HarmlessAt(inv, clicks, |front|) <==> Harmless(Run(inv, front), clicks[|front|]);
  }

  /** Conservation over any run of swaps, between two slots or of one with itself: counts stay between 0 and 64, nothing
      is ever made, and every total stays the same exactly when every swap of a slot with itself is harmless. */
  lemma {:induction false} RunConservesIff(inv: seq<Item>, clicks: seq<Click>)
    requires AllOk(inv) && forall k :: 0 <= k < |clicks| ==> Legal(|inv|, clicks[k])
    ensures AllOk(Run(inv, clicks)) && NothingMade(inv, Run(inv, clicks))
    ensures AllKept(inv, Run(inv, clicks)) <==> HarmlessThroughout(inv, clicks)
    decreases |clicks|
  {
    hide After, AllOk, Harmless, HarmlessThroughout, Total;
    if clicks == [] {
      NoClicks(inv);
    } else {
      var front, c := clicks[..|clicks| - 1], clicks[|clicks| - 1];
      assert Legal(|inv|, c);
      RunConservesIff(inv, front);
      HarmlessFront(inv, clicks);
      var before := Run(inv, front);
      if c.i == c.j { SelfClick(before, c); } else { OtherClick(before, c); NoHarm(before, c); }
      KeptTwice(inv, before, After(before, c));
    }
  }

  lemma NoClicks(inv: seq<Item>)
    ensures HarmlessThroughout(inv, [])
  {}

  lemma NoHarm(inv: seq<Item>, c: Click)
    requires Legal(|inv|, c) && c.i != c.j
    ensures Harmless(inv, c)
  {}

  /** What never grows is kept as a whole exactly when it is kept step by step. */
  lemma KeptTwice(a: seq<Item>, b: seq<Item>, c: seq<Item>)
    requires NothingMade(a, b) && NothingMade(b, c)
    ensures NothingMade(a, c) && (AllKept(a, c) <==> AllKept(a, b) && AllKept(b, c))
  {
    hide Total;
    forall id: int ensures Total(c, id) <= Total(b, id) <= Total(a, id) {}
  }

  /** Swaps between different slots keep every total. */
  lemma RunConserves(inv: seq<Item>, clicks: seq<Click>, id: int)
    requires AllOk(inv) && forall k :: 0 <= k < |clicks| ==> Legal(|inv|, clicks[k]) && clicks[k].i != clicks[k].j
    ensures AllOk(Run(inv, clicks)) && Total(Run(inv, clicks), id) == Total(inv, id)
  {
    hide Run, AllOk;
    RunConservesIff(inv, clicks);
  }
}
