/**
  Insertion, replacement and removal of one entry in a layer, splits and pull-ups included
  (server/enclave/masstree/masstree_insert.cpp, masstree_remove.cpp, masstree_node.cpp findBorder).
 */
module LayerOps {
  import opened Base
  import opened Keys
  import opened Layer
  import opened SplitPoint

  // ---------------------------------------------------------------- well-formed layers

  predicate NodeOk(es: seq<Entry>) {
    1 <= |es| <= MAX_KEYS && Sorted(es) && Apart(es) && forall i :: 0 <= i < |es| ==> EntryOk(es[i])
  }

  function From(keys: seq<Slice>, lo: nat, i: nat): nat requires i <= |keys| { if i == 0 then lo else keys[i - 1] }
  function To(keys: seq<Slice>, hi: nat, i: nat): nat requires i <= |keys| { if i == |keys| then hi else keys[i] }

  predicate KeysOk(keys: seq<Slice>, lo: nat, hi: nat) {
    Increasing(keys) && lo < hi && forall i :: 0 <= i < |keys| ==> lo < keys[i] < hi
  }

  /** Every slice below `t` lies in [lo, hi), and every child between the keys around it. */
  predicate Ranged(t: Tree, lo: nat, hi: nat) {
    match t
    case Border(es) => forall i :: 0 <= i < |es| ==> lo <= es[i].slice < hi
    case Interior(keys, kids) =>
      |kids| == |keys| + 1 && KeysOk(keys, lo, hi)
      && forall i :: 0 <= i < |kids| ==> Ranged(kids[i], From(keys, lo, i), To(keys, hi, i))
  }

  /** Node sizes and order; lower layers are well-formed trees of their own. */
  predicate Shaped(t: Tree) {
    match t
    case Border(es) => NodeOk(es) && forall i :: 0 <= i < |es| ==> LinkOk(es[i].link)
    case Interior(keys, kids) => 1 <= |keys| <= MAX_KEYS && |kids| == |keys| + 1 && forall i :: 0 <= i < |kids| ==>
        Shaped(kids[i])
  }

  predicate LinkOk(link: Link) {
    link.Lower? ==> Shaped(link.root) && Ranged(link.root, 0, SLICE_LIMIT)
  }

  predicate BTree(t: Tree, lo: nat, hi: nat) { Shaped(t) && Ranged(t, lo, hi) }

  /** A whole layer, reached by its root. */
  predicate LayerOk(t: Tree) { BTree(t, 0, SLICE_LIMIT) }

  /** The children of an interior node of any size. */
  predicate KidsOk(keys: seq<Slice>, kids: seq<Tree>, lo: nat, hi: nat) {
    |kids| == |keys| + 1 && KeysOk(keys, lo, hi)
    && forall i {:trigger kids[i]} :: 0 <= i < |kids| ==> BTree(kids[i], From(keys, lo, i), To(keys, hi, i))
  }

  lemma {:induction false} Widen(t: Tree, lo: nat, hi: nat, lo': nat, hi': nat)
    requires Ranged(t, lo, hi) && lo' <= lo && hi <= hi'
    ensures Ranged(t, lo', hi')
    decreases t
  {
    if t.Interior? {
      forall i | 0 <= i < |t.kids| ensures Ranged(t.kids[i], From(t.keys, lo', i), To(t.keys, hi', i)) {
        Widen(t.kids[i], From(t.keys, lo, i), To(t.keys, hi, i), From(t.keys, lo', i), To(t.keys, hi', i));
      }
    }
  }

  // ---------------------------------------------------------------- operations

  /** findBorder and the search there: the entry in `slot`, if any. */
  function Reach(t: Tree, slot: Slot): (e: Option<Entry>)
    requires Shaped(t)
    ensures e.Some? ==> SlotOf(e.value) == slot && EntryOk(e.value) && LinkOk(e.value.link)
    decreases t
  {
    match t
    case Border(es) => At(es, slot)
    case Interior(keys, kids) => Reach(kids[FindChild(keys, slot.slice)], slot)
  }

  /** A node after an insertion below it: itself, or its two halves and the key that goes up. */
  datatype Added = One(t: Tree) | Two(left: Tree, sep: Slice, right: Tree)

  function SplitBorder(es: seq<Entry>, e: Entry): Added
    requires FullNode(es)
  {
    PointSeparates(es, e);
    TwoSlices(es);
    var n := Point(e.slice, Table(es, MAX_KEYS));
    var all := Placed(es, e);
    Two(Border(all[..n]), all[n].slice, Border(all[n..]))
  }

  /** Where an interior node is cut: the key at HALF - 1 goes up. */
  const HALF: nat := ORDER / 2

  /** insert_into_parent, or the interior split_keys_among when the parent is full. */
  function AddChild(keys: seq<Slice>, kids: seq<Tree>, c: nat, sep: Slice, right: Tree): Added
    requires |kids| == |keys| + 1 <= ORDER && c <= |keys|
  {
    var keys', kids' := InsertAt(keys, c, sep), InsertAt(kids, c + 1, right);
    if |keys| < MAX_KEYS then One(Interior(keys', kids'))
    else Two(Interior(keys'[..HALF - 1], kids'[..HALF]), keys'[HALF - 1], Interior(keys'[HALF..], kids'[HALF..]))
  }

  function AddEntry(t: Tree, e: Entry): Added
    requires Shaped(t)
    decreases t
  {
    match t
    case Border(es) => if |es| < MAX_KEYS then One(Border(Placed(es, e))) else SplitBorder(es, e)
    case Interior(keys, kids) =>
      var c := FindChild(keys, e.slice);
      match AddEntry(kids[c], e)
      case One(kid) => One(Interior(keys, kids[c := kid]))
      case Two(left, sep, right) => AddChild(keys, kids[c := left], c, sep, right)
  }

  /** create_root_with_children when the root itself was split. */
  function Rooted(a: Added): Tree {
    match a
    case One(t) => t
    case Two(left, sep, right) => Interior([sep], [left, right])
  }

  /** The link of the entry in `slot` is overwritten in place. */
  function PutLink(t: Tree, slot: Slot, link: Link): Tree
    requires Shaped(t)
    decreases t
  {
    match t
    case Border(es) =>
      var i := IndexOf(es, slot);
      if i < |es| then Border(es[i := es[i].(link := link)]) else t
    case Interior(keys, kids) =>
      var c := FindChild(keys, slot.slice);
      Interior(keys, kids[c := PutLink(kids[c], slot, link)])
  }

  /** delete_borderNode_in_remove for child `c` of a parent that is not the root of a lower layer's only node. */
  function DropChild(keys: seq<Slice>, kids: seq<Tree>, c: nat): Tree
    requires |kids| == |keys| + 1 && |keys| >= 1 && c < |kids|
  {
    if |keys| >= 2 then Interior(RemoveAt(keys, if c == 0 then 0 else c - 1), RemoveAt(kids, c))
    else kids[if c == 1 then 0 else 1]
  }

  /** Removing the entry in `slot`; `None`: the border node is empty and goes away. */
  function DropEntry(t: Tree, slot: Slot): Option<Tree>
    requires Shaped(t)
    decreases t
  {
    match t
    case Border(es) =>
      var i := IndexOf(es, slot);
      if i == |es| then Some(t)
      else if |es| == 1 then None
      else Some(Border(RemoveAt(es, i)))
    case Interior(keys, kids) =>
      var c := FindChild(keys, slot.slice);
      match DropEntry(kids[c], slot)
      case Some(kid) => Some(Interior(keys, kids[c := kid]))
      case None => Some(DropChild(keys, kids, c))
  }

  // ---------------------------------------------------------------- insertion keeps the tree

  ghost predicate AddedOk(a: Added, lo: nat, hi: nat) {
    match a
    case One(t) => BTree(t, lo, hi)
    case Two(left, sep, right) => lo < sep < hi && BTree(left, lo, sep) && BTree(right, sep, hi)
  }

  /** An entry that may be added to `t`. */
  ghost predicate Fresh(t: Tree, e: Entry, lo: nat, hi: nat) {
    BTree(t, lo, hi) && lo <= e.slice < hi && EntryOk(e) && LinkOk(e.link) && Reach(t, SlotOf(e)) == None
  }

  lemma PlacedLinks(es: seq<Entry>, e: Entry, lo: nat, hi: nat)
    requires Fresh(Border(es), e, lo, hi)
    ensures var all := Placed(es, e);
            && Sorted(all) && Apart(all)
            && (forall i :: 0 <= i < |all| ==> EntryOk(all[i]) && LinkOk(all[i].link) && lo <= all[i].slice < hi)
  {
    PlacedKeeps(es, e);
    hide Shaped, Ranged, SlotOf;
  }

  /** The shape of a border split: conserved, both halves non-empty, equal slices together. */
  lemma BorderSplitShape(es: seq<Entry>, e: Entry)
    requires FullNode(es) && At(es, SlotOf(e)) == None
    ensures var a := SplitBorder(es, e);
            && a.Two? && a.left.Border? && a.right.Border?
            && a.left.entries != [] && a.right.entries != [] && a.sep == a.right.entries[0].slice
            && a.left.entries + a.right.entries == Placed(es, e)
            && (forall i :: 0 <= i < |a.left.entries| ==> a.left.entries[i].slice < a.sep)
            && (forall i :: 0 <= i < |a.right.entries| ==> a.sep <= a.right.entries[i].slice)
  {
    PointSeparates(es, e);
    PlacedKeeps(es, e);
    hide Point, Table, Placed, SlotOf;
    var all, n := Placed(es, e), Point(e.slice, Table(es, MAX_KEYS));
    assert all == all[..n] + all[n..];
    assert all[n..][0] == all[n];
  }

  lemma LeafTree(es: seq<Entry>, lo: nat, hi: nat)
    requires 1 <= |es| <= MAX_KEYS && Sorted(es) && Apart(es)
    requires forall i :: 0 <= i < |es| ==> EntryOk(es[i]) && LinkOk(es[i].link) && lo <= es[i].slice < hi
    ensures BTree(Border(es), lo, hi)
  {
  }

  lemma CutTree(all: seq<Entry>, n: nat, lo: nat, hi: nat)
    requires |all| == ORDER && 1 <= n <= MAX_KEYS && Sorted(all) && Apart(all) && all[n - 1].slice < all[n].slice
    requires forall i :: 0 <= i < |all| ==> EntryOk(all[i]) && LinkOk(all[i].link) && lo <= all[i].slice < hi
    ensures BTree(Border(all[..n]), lo, all[n].slice) && BTree(Border(all[n..]), all[n].slice, hi)
  {
    CutKeeps(all, n);
    LeafTree(all[..n], lo, all[n].slice);
    LeafTree(all[n..], all[n].slice, hi);
    hide BTree, EntryOk, LinkOk, Apart;
  }

  /** A border split keeps both halves well-formed. */
  lemma BorderSplitOk(es: seq<Entry>, e: Entry, lo: nat, hi: nat)
    requires Fresh(Border(es), e, lo, hi) && |es| == MAX_KEYS
    ensures AddedOk(SplitBorder(es, e), lo, hi)
  {
    PlacedLinks(es, e, lo, hi);
    PointSeparates(es, e);
    CutTree(Placed(es, e), Point(e.slice, Table(es, MAX_KEYS)), lo, hi);
    hide BTree, EntryOk, LinkOk, Apart, Placed, Point, Table;
  }

  /** A border split conserves the entries. */
  lemma BorderSplitKeeps(es: seq<Entry>, e: Entry, lo: nat, hi: nat)
    requires Fresh(Border(es), e, lo, hi) && |es| == MAX_KEYS
    ensures var a := SplitBorder(es, e);
            && AddedOk(a, lo, hi)
            && a.left.Border? && a.right.Border?
            && multiset(a.left.entries) + multiset(a.right.entries) == multiset(es) + multiset{e}
  {
    BorderSplitOk(es, e, lo, hi);
    PlacedConserves(es, e);
    BorderSplitShape(es, e);
    var a := SplitBorder(es, e);
    hide SplitBorder, Placed, SlotOf, AddedOk;
    assert multiset(a.left.entries + a.right.entries) == multiset(a.left.entries) + multiset(a.right.entries);
  }

  lemma AddChildOk(keys: seq<Slice>, kids: seq<Tree>, c: nat, left: Tree, sep: Slice, right: Tree, lo: nat, hi: nat)
    requires KidsOk(keys, kids, lo, hi) && c <= |keys|
    requires From(keys, lo, c) < sep < To(keys, hi, c)
    requires BTree(left, From(keys, lo, c), sep) && BTree(right, sep, To(keys, hi, c))
    ensures KidsOk(InsertAt(keys, c, sep), InsertAt(kids[c := left], c + 1, right), lo, hi)
  {
    hide Ranged, Shaped, BTree;
    var keys', kids' := InsertAt(keys, c, sep), InsertAt(kids[c := left], c + 1, right);
    forall i | 0 <= i < |kids'| ensures BTree(kids'[i], From(keys', lo, i), To(keys', hi, i)) {
      if i < c {
        assert kids'[i] == kids[i];
      } else if i > c + 1 {
        assert kids'[i] == kids[i - 1];
      }
    }
  }

  lemma KidsCut(keys: seq<Slice>, kids: seq<Tree>, n: nat, lo: nat, hi: nat)
    requires KidsOk(keys, kids, lo, hi) && 1 <= n <= |keys|
    ensures KidsOk(keys[..n - 1], kids[..n], lo, keys[n - 1])
    ensures KidsOk(keys[n..], kids[n..], keys[n - 1], hi)
  {
    hide Ranged, Shaped, BTree;
    forall i | 0 <= i < n ensures BTree(kids[..n][i], From(keys[..n - 1], lo, i), To(keys[..n - 1], keys[n - 1], i)) {
      assert kids[..n][i] == kids[i];
    }
    forall i | 0 <= i < |kids[n..]| ensures BTree(kids[n..][i], From(keys[n..], keys[n - 1], i), To(keys[n..], hi, i)) {
      assert kids[n..][i] == kids[n + i];
    }
  }

  lemma KidsTree(keys: seq<Slice>, kids: seq<Tree>, lo: nat, hi: nat)
    ensures KidsOk(keys, kids, lo, hi) && 1 <= |keys| <= MAX_KEYS <==> BTree(Interior(keys, kids), lo, hi)
  {
  }

  lemma AddChildKeeps(keys: seq<Slice>, kids: seq<Tree>, c: nat, left: Tree, sep: Slice, right: Tree, lo: nat, hi: nat)
    requires KidsOk(keys, kids, lo, hi) && 1 <= |keys| <= MAX_KEYS && c <= |keys|
    requires From(keys, lo, c) < sep < To(keys, hi, c)
    requires BTree(left, From(keys, lo, c), sep) && BTree(right, sep, To(keys, hi, c))
    ensures AddedOk(AddChild(keys, kids[c := left], c, sep, right), lo, hi)
  {
    var keys', kids' := InsertAt(keys, c, sep), InsertAt(kids[c := left], c + 1, right);
    AddChildOk(keys, kids, c, left, sep, right, lo, hi);
    if |keys| < MAX_KEYS {
      KidsTree(keys', kids', lo, hi);
    } else {
      KidsCut(keys', kids', HALF, lo, hi);
      KidsTree(keys'[..HALF - 1], kids'[..HALF], lo, keys'[HALF - 1]);
      KidsTree(keys'[HALF..], kids'[HALF..], keys'[HALF - 1], hi);
    }
    hide Ranged, Shaped, BTree;
  }

  /**
    The shape of an interior insertion: keys and children conserved and in order, and a full node cut so
    that the right half has one key more than the left, with the key between them going up.
   */
  lemma AddChildShape(keys: seq<Slice>, kids: seq<Tree>, c: nat, sep: Slice, right: Tree)
    requires |kids| == |keys| + 1 <= ORDER && c <= |keys|
    ensures var keys', kids' := InsertAt(keys, c, sep), InsertAt(kids, c + 1, right);
            match AddChild(keys, kids, c, sep, right)
            case One(t) => |keys| < MAX_KEYS && t == Interior(keys', kids')
            case Two(l, up, r) =>
              && |keys| == MAX_KEYS && l.Interior? && r.Interior? && |r.keys| == |l.keys| + 1
              && |l.kids| == |l.keys| + 1 && |r.kids| == |r.keys| + 1
              && l.keys + [up] + r.keys == keys' && l.kids + r.kids == kids'
  {
    var keys', kids' := InsertAt(keys, c, sep), InsertAt(kids, c + 1, right);
    if |keys| == MAX_KEYS {
      assert keys'[..HALF - 1] + [keys'[HALF - 1]] + keys'[HALF..] == keys';
      assert kids'[..HALF] + kids'[HALF..] == kids';
    }
  }

  /** The child that findChild picks covers the slice. */
  lemma ChildCovers(keys: seq<Slice>, kids: seq<Tree>, lo: nat, hi: nat, slice: Slice)
    requires KidsOk(keys, kids, lo, hi) && lo <= slice < hi
    ensures var c := FindChild(keys, slice); From(keys, lo, c) <= slice < To(keys, hi, c)
    ensures var c := FindChild(keys, slice); BTree(kids[c], From(keys, lo, c), To(keys, hi, c))
  {
  }

  /** Insertion keeps a layer well-formed, with splits at any height. */
  lemma {:induction false} AddKeeps(t: Tree, e: Entry, lo: nat, hi: nat)
    requires Fresh(t, e, lo, hi)
    ensures AddedOk(AddEntry(t, e), lo, hi)
    decreases t
  {
    match t
    case Border(es) =>
      if |es| < MAX_KEYS {
        PlacedLinks(es, e, lo, hi);
      } else {
        BorderSplitKeeps(es, e, lo, hi);
      }
    case Interior(keys, kids) =>
      KidsTree(keys, kids, lo, hi);
      ChildCovers(keys, kids, lo, hi, e.slice);
      var c := FindChild(keys, e.slice);
      AddKeeps(kids[c], e, From(keys, lo, c), To(keys, hi, c));
      match AddEntry(kids[c], e) {
        case One(kid) => ReplaceKid(keys, kids, c, kid, lo, hi);
        case Two(left, sep, right) => AddChildKeeps(keys, kids, c, left, sep, right, lo, hi);
      }
  }

  lemma ReplaceKid(keys: seq<Slice>, kids: seq<Tree>, c: nat, kid: Tree, lo: nat, hi: nat)
    requires BTree(Interior(keys, kids), lo, hi) && c < |kids| && BTree(kid, From(keys, lo, c), To(keys, hi, c))
    ensures BTree(Interior(keys, kids[c := kid]), lo, hi)
  {
    KidsTree(keys, kids, lo, hi);
    KidsTree(keys, kids[c := kid], lo, hi);
    hide Ranged, Shaped, BTree;
    forall i | 0 <= i < |kids| ensures BTree(kids[c := kid][i], From(keys, lo, i), To(keys, hi, i)) {
      assert i != c ==> kids[c := kid][i] == kids[i];
    }
  }
}
