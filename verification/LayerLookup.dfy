/**
  What lookups in a layer answer after each operation: every slot but the one worked on keeps its
  entry, through splits of border and interior nodes, root growth, unlinked nodes and pull-ups.
 */
module LayerLookup {
  import opened Base
  import opened Keys
  import opened Layer
  import opened LayerOps

  /** A lookup among the children of an interior node. */
  function ReachIn(keys: seq<Slice>, kids: seq<Tree>, slot: Slot): Option<Entry>
    requires |kids| == |keys| + 1 && forall i :: 0 <= i < |kids| ==> Shaped(kids[i])
  {
    Reach(kids[FindChild(keys, slot.slice)], slot)
  }

  /** A lookup after an insertion that may have split the node. */
  function ReachAdded(a: Added, slot: Slot): Option<Entry>
    requires Shaped(Rooted(a))
  {
    Reach(Rooted(a), slot)
  }

  lemma RootedOk(a: Added, lo: nat, hi: nat)
    requires AddedOk(a, lo, hi)
    ensures BTree(Rooted(a), lo, hi)
  {
    match a
    case One(_) =>
    case Two(left, sep, right) =>
      var keys, kids := [sep], [left, right];
      assert KidsOk(keys, kids, lo, hi);
      KidsTree(keys, kids, lo, hi);
  }

  lemma TwoReach(left: Tree, sep: Slice, right: Tree, slot: Slot)
    requires Shaped(left) && Shaped(right)
    ensures Shaped(Rooted(Two(left, sep, right)))
    ensures Reach(Rooted(Two(left, sep, right)), slot)
          == if slot.slice < sep then Reach(left, slot) else Reach(right, slot)
  {
    assert FindChild([sep], slot.slice) == if slot.slice < sep then 0 else 1;
  }

  /** Cutting the children of a node in two leaves every lookup where it was. */
  lemma CutReach(keys: seq<Slice>, kids: seq<Tree>, n: nat, lo: nat, hi: nat, slot: Slot)
    requires KidsOk(keys, kids, lo, hi) && 1 <= n <= |keys|
    ensures KidsOk(keys[..n - 1], kids[..n], lo, keys[n - 1]) && KidsOk(keys[n..], kids[n..], keys[n - 1], hi)
    ensures ReachIn(keys, kids, slot)
            == if slot.slice < keys[n - 1] then ReachIn(keys[..n - 1], kids[..n], slot)
                else ReachIn(keys[n..], kids[n..], slot)
  {
    KidsCut(keys, kids, n, lo, hi);
    var c := FindChild(keys, slot.slice);
    if slot.slice < keys[n - 1] {
      FindChildIs(keys[..n - 1], slot.slice, c);
    } else {
      assert c >= n;
      FindChildIs(keys[n..], slot.slice, c - n);
    }
  }

  /** A child replaced by its two halves: lookups in its range go to one of them. */
  lemma SplitChildReach(keys: seq<Slice>, kids: seq<Tree>, c: nat, left: Tree, sep: Slice, right: Tree, lo: nat,
                        hi: nat, slot: Slot)
    requires KidsOk(keys, kids, lo, hi) && c <= |keys|
    requires From(keys, lo, c) < sep < To(keys, hi, c)
    requires BTree(left, From(keys, lo, c), sep) && BTree(right, sep, To(keys, hi, c))
    ensures var keys', kids' := InsertAt(keys, c, sep), InsertAt(kids[c := left], c + 1, right);
            && KidsOk(keys', kids', lo, hi)
            && ReachIn(keys', kids', slot)
               == if FindChild(keys, slot.slice) != c then ReachIn(keys, kids, slot)
                  else if slot.slice < sep then Reach(left, slot) else Reach(right, slot)
  {
    var keys', kids' := InsertAt(keys, c, sep), InsertAt(kids[c := left], c + 1, right);
    AddChildOk(keys, kids, c, left, sep, right, lo, hi);
    hide Ranged, Shaped, Reach;
    var d := FindChild(keys, slot.slice);
    var d' := if d < c || (d == c && slot.slice < sep) then d else d + 1;
    FindChildIs(keys', slot.slice, d');
    assert kids'[d'] == if d != c then kids[d] else if slot.slice < sep then left else right;
  }

  lemma FullChildReach(keys: seq<Slice>, kids: seq<Tree>, c: nat, sep: Slice, right: Tree, lo: nat, hi: nat, slot: Slot)
    requires |keys| == MAX_KEYS && |kids| == ORDER && c <= |keys|
    requires KidsOk(InsertAt(keys, c, sep), InsertAt(kids, c + 1, right), lo, hi)
    ensures var a := AddChild(keys, kids, c, sep, right);
            Shaped(Rooted(a)) && ReachAdded(a, slot)
                == ReachIn(InsertAt(keys, c, sep), InsertAt(kids, c + 1, right), slot)
  {
    var keys', kids' := InsertAt(keys, c, sep), InsertAt(kids, c + 1, right);
    var a := AddChild(keys, kids, c, sep, right);
    CutReach(keys', kids', HALF, lo, hi, slot);
    KidsTree(keys'[..HALF - 1], kids'[..HALF], lo, keys'[HALF - 1]);
    KidsTree(keys'[HALF..], kids'[HALF..], keys'[HALF - 1], hi);
    TwoReach(a.left, a.sep, a.right, slot);
    hide KidsOk, Rooted, FindChild;
  }

  lemma AddChildReach(keys: seq<Slice>, kids: seq<Tree>, c: nat, left: Tree, sep: Slice, right: Tree, lo: nat, hi: nat,
                      slot: Slot)
    requires KidsOk(keys, kids, lo, hi) && 1 <= |keys| <= MAX_KEYS && c <= |keys|
    requires From(keys, lo, c) < sep < To(keys, hi, c)
    requires BTree(left, From(keys, lo, c), sep) && BTree(right, sep, To(keys, hi, c))
    ensures var a := AddChild(keys, kids[c := left], c, sep, right);
            && Shaped(Rooted(a))
            && ReachAdded(a, slot)
               == if FindChild(keys, slot.slice) != c then ReachIn(keys, kids, slot)
                  else if slot.slice < sep then Reach(left, slot) else Reach(right, slot)
  {
    SplitChildReach(keys, kids, c, left, sep, right, lo, hi, slot);
    if |keys| == MAX_KEYS {
      FullChildReach(keys, kids[c := left], c, sep, right, lo, hi, slot);
    } else {
      KidsTree(InsertAt(keys, c, sep), InsertAt(kids[c := left], c + 1, right), lo, hi);
    }
    hide KidsOk, FindChild;
  }

  lemma BorderAddReach(es: seq<Entry>, e: Entry, lo: nat, hi: nat, slot: Slot)
    requires Fresh(Border(es), e, lo, hi)
    ensures Shaped(Rooted(AddEntry(Border(es), e)))
    ensures ReachAdded(AddEntry(Border(es), e), slot) == if slot == SlotOf(e) then Some(e) else At(es, slot)
  {
    AddKeeps(Border(es), e, lo, hi);
    RootedOk(AddEntry(Border(es), e), lo, hi);
    PlacedAt(es, e, slot);
    if |es| == MAX_KEYS {
      BorderSplitShape(es, e);
      PlacedKeeps(es, e);
      var a := SplitBorder(es, e);
      hide SplitBorder, Placed;
      var all, n := Placed(es, e), |a.left.entries|;
      assert all[..n] == a.left.entries && all[n..] == a.right.entries;
      assert all[n] == a.right.entries[0] && all[n - 1] == a.left.entries[n - 1];
      CutAt(all, n, slot);
      TwoReach(a.left, a.sep, a.right, slot);
    }
  }

  /** Insertion: the new entry is found in its slot, and every other slot answers as before. */
  lemma {:induction false} AddReach(t: Tree, e: Entry, lo: nat, hi: nat, slot: Slot)
    requires Fresh(t, e, lo, hi)
    ensures Shaped(Rooted(AddEntry(t, e)))
    ensures ReachAdded(AddEntry(t, e), slot) == if slot == SlotOf(e) then Some(e) else Reach(t, slot)
    decreases t
  {
    AddKeeps(t, e, lo, hi);
    RootedOk(AddEntry(t, e), lo, hi);
    match t
    case Border(es) => BorderAddReach(es, e, lo, hi, slot);
    case Interior(keys, kids) =>
      KidsTree(keys, kids, lo, hi);
      ChildCovers(keys, kids, lo, hi, e.slice);
      var c := FindChild(keys, e.slice);
      AddKeeps(kids[c], e, From(keys, lo, c), To(keys, hi, c));
      AddReach(kids[c], e, From(keys, lo, c), To(keys, hi, c), slot);
      match AddEntry(kids[c], e) {
        case One(_) =>
        case Two(left, sep, right) =>
          AddChildReach(keys, kids, c, left, sep, right, lo, hi, slot);
          TwoReach(left, sep, right, slot);
      }
  }
}
