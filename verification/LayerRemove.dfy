/**
  Overwriting and removing an entry of a layer: the tree stays well-formed and no other slot changes.
 */
module LayerRemove {
  import opened Base
  import opened Keys
  import opened Layer
  import opened LayerOps

  // ---------------------------------------------------------------- overwriting a link

  /** The link of `slot` may become `link`. */
  ghost predicate Fits(t: Tree, slot: Slot, link: Link, lo: nat, hi: nat) {
    BTree(t, lo, hi) && slot.len == HAS_SUFFIX && !link.Value? && LinkOk(link) && Reach(t, slot).Some?
  }

  lemma {:induction false} PutKeeps(t: Tree, slot: Slot, link: Link, lo: nat, hi: nat)
    requires Fits(t, slot, link, lo, hi)
    ensures BTree(PutLink(t, slot, link), lo, hi)
    decreases t
  {
    match t
    case Border(es) =>
      var i := IndexOf(es, slot);
      ReplacedAt(es, i, es[i].(link := link), slot);
    case Interior(keys, kids) =>
      var c := FindChild(keys, slot.slice);
      PutKeeps(kids[c], slot, link, From(keys, lo, c), To(keys, hi, c));
      ReplaceKid(keys, kids, c, PutLink(kids[c], slot, link), lo, hi);
  }

  lemma {:induction false} PutReach(t: Tree, slot: Slot, link: Link, lo: nat, hi: nat, other: Slot)
    requires Fits(t, slot, link, lo, hi)
    ensures Shaped(PutLink(t, slot, link))
    ensures Reach(PutLink(t, slot, link), other)
          == if other == slot then Some(Entry(slot.slice, link)) else Reach(t, other)
    decreases t
  {
    PutKeeps(t, slot, link, lo, hi);
    match t
    case Border(es) =>
      var i := IndexOf(es, slot);
      ReplacedAt(es, i, es[i].(link := link), other);
    case Interior(keys, kids) =>
      var c := FindChild(keys, slot.slice);
      PutReach(kids[c], slot, link, From(keys, lo, c), To(keys, hi, c), other);
  }

  // ---------------------------------------------------------------- removing an entry

  /** A layer node holds nothing outside its range. */
  lemma {:induction false} OutOfRange(t: Tree, lo: nat, hi: nat, slot: Slot)
    requires BTree(t, lo, hi) && !(lo <= slot.slice < hi)
    ensures Reach(t, slot) == None
    decreases t
  {
    match t
    case Border(es) => AtNone(es, slot);
    case Interior(keys, kids) =>
      var c := FindChild(keys, slot.slice);
      OutOfRange(kids[c], From(keys, lo, c), To(keys, hi, c), slot);
  }

  /** The ranges of the children that are left when child `c` goes: a neighbour takes over its range. */
  lemma DropChildOk(keys: seq<Slice>, kids: seq<Tree>, c: nat, lo: nat, hi: nat)
    requires KidsOk(keys, kids, lo, hi) && |keys| >= 1 && c < |kids|
    ensures KidsOk(RemoveAt(keys, if c == 0 then 0 else c - 1), RemoveAt(kids, c), lo, hi)
  {
    var d := if c == 0 then 0 else c - 1;
    var keys', kids' := RemoveAt(keys, d), RemoveAt(kids, c);
    forall i | 0 <= i < |kids'| ensures BTree(kids'[i], From(keys', lo, i), To(keys', hi, i)) {
      var k := if i < c then i else i + 1;
      assert kids'[i] == kids[k];
      Widen(kids[k], From(keys, lo, k), To(keys, hi, k), From(keys', lo, i), To(keys', hi, i));
    }
  }

  lemma DropChildKeeps(keys: seq<Slice>, kids: seq<Tree>, c: nat, lo: nat, hi: nat)
    requires BTree(Interior(keys, kids), lo, hi) && c < |kids|
    ensures BTree(DropChild(keys, kids, c), lo, hi)
  {
    KidsTree(keys, kids, lo, hi);
    DropChildOk(keys, kids, c, lo, hi);
    if |keys| >= 2 {
      KidsTree(RemoveAt(keys, if c == 0 then 0 else c - 1), RemoveAt(kids, c), lo, hi);
    } else {
      assert RemoveAt(kids, c)[0] == kids[if c == 1 then 0 else 1];
    }
  }

  /** The child a lookup picks when child `c` is gone, by its new and by its old index. */
  lemma DropIndex(keys: seq<Slice>, c: nat, slice: Slice) returns (n: nat, o: nat)
    requires Increasing(keys) && |keys| >= 1 && c <= |keys|
    ensures FindChild(RemoveAt(keys, if c == 0 then 0 else c - 1), slice) == n < |keys|
    ensures o == (if n < c then n else n + 1)
    ensures var f := FindChild(keys, slice);
            if f != c then o == f else o == (if c == 0 then 1 else c - 1)
  {
    var f := FindChild(keys, slice);
    n := if f < c || (f == c && c == 0) then f else f - 1;
    o := if n < c then n else n + 1;
    FindChildIs(RemoveAt(keys, if c == 0 then 0 else c - 1), slice, n);
  }

  /** The neighbour that takes over the range of child `c` holds nothing there. */
  lemma NeighbourHoldsNothing(keys: seq<Slice>, kids: seq<Tree>, c: nat, lo: nat, hi: nat, slot: Slot)
    requires KidsOk(keys, kids, lo, hi) && |keys| >= 1 && FindChild(keys, slot.slice) == c
    ensures Reach(kids[if c == 0 then 1 else c - 1], slot) == None
  {
    var o := if c == 0 then 1 else c - 1;
    OutOfRange(kids[o], From(keys, lo, o), To(keys, hi, o), slot);
  }

  /** Lookups after a child went away: nothing where it was, and the others as before. */
  lemma DropChildReach(keys: seq<Slice>, kids: seq<Tree>, c: nat, lo: nat, hi: nat, slot: Slot)
    requires BTree(Interior(keys, kids), lo, hi) && c < |kids|
    ensures Shaped(DropChild(keys, kids, c))
    ensures Reach(DropChild(keys, kids, c), slot)
            == if FindChild(keys, slot.slice) == c then None else Reach(Interior(keys, kids), slot)
  {
    KidsTree(keys, kids, lo, hi);
    DropChildKeeps(keys, kids, c, lo, hi);
    var n, o := DropIndex(keys, c, slot.slice);
    if FindChild(keys, slot.slice) == c {
      NeighbourHoldsNothing(keys, kids, c, lo, hi, slot);
    }
    hide KidsOk, Ranged, FindChild;
    assert RemoveAt(kids, c)[n] == kids[o];
  }

  /** Removal keeps the layer well-formed; only a border node with a single entry can vanish. */
  lemma {:induction false} DropKeeps(t: Tree, slot: Slot, lo: nat, hi: nat)
    requires BTree(t, lo, hi)
    ensures match DropEntry(t, slot)
            case Some(t') => BTree(t', lo, hi)
            case None => t.Border? && |t.entries| == 1 && Reach(t, slot).Some?
    decreases t
  {
    match t
    case Border(es) =>
      var i := IndexOf(es, slot);
      if i < |es| {
        RemovedAt(es, i, slot);
      }
    case Interior(keys, kids) =>
      var c := FindChild(keys, slot.slice);
      DropKeeps(kids[c], slot, From(keys, lo, c), To(keys, hi, c));
      match DropEntry(kids[c], slot) {
        case Some(kid) => ReplaceKid(keys, kids, c, kid, lo, hi);
        case None => DropChildKeeps(keys, kids, c, lo, hi);
      }
  }

  /** What is found after a removal; a node that vanished holds nothing. */
  function ReachLeft(t: Option<Tree>, slot: Slot): Option<Entry>
    requires t.Some? ==> Shaped(t.value)
  {
    match t
    case Some(left) => Reach(left, slot)
    case None => None
  }

  /** Removal: the slot is empty afterwards, and every other slot answers as before. */
  lemma {:induction false} DropReach(t: Tree, slot: Slot, lo: nat, hi: nat, other: Slot)
    requires BTree(t, lo, hi)
    ensures DropEntry(t, slot).Some? ==> Shaped(DropEntry(t, slot).value)
    ensures ReachLeft(DropEntry(t, slot), other) == if other == slot then None else Reach(t, other)
    decreases t
  {
    DropKeeps(t, slot, lo, hi);
    match t
    case Border(es) =>
      var i := IndexOf(es, slot);
      if i < |es| {
        RemovedAt(es, i, other);
        if |es| == 1 {
          assert RemoveAt(es, i) == [];
        }
      }
    case Interior(keys, kids) =>
      var c := FindChild(keys, slot.slice);
      DropReach(kids[c], slot, From(keys, lo, c), To(keys, hi, c), other);
      if DropEntry(kids[c], slot) == None {
        DropChildReach(keys, kids, c, lo, hi, other);
      }
  }
}
