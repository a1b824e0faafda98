/**
  One layer of a Masstree: a B+-tree of border and interior nodes ordered by key slice
  (server/enclave/masstree/include/masstree_node.h, masstree_insert.cpp, masstree_remove.cpp).

  A node is the value its arrays hold, in permutation order; BorderNodes and InteriorNodes model the arrays.  A split
  or an emptied node travels up as the result of the recursion, where the source follows parent links.
 */
module Layer {
  import opened Base
  import opened Keys

  /** Node::ORDER, and the keys a node holds at most. */
  const ORDER: nat := 16
  const MAX_KEYS: nat := ORDER - 1

  /** A Value object, by identity. */
  type Ref = nat

  /** What key_len, the suffix pointer and the union lv say about a slot. */
  datatype Link =
    | Value(len: nat, ref: Ref)            // key_len 1..8: the key ends with this slice
    | Suffix(rest: Rest, ref: Ref)         // key_len_has_suffix
    | Lower(root: Tree)                    // key_len_layer
  datatype Entry = Entry(slice: Slice, link: Link)
  datatype Tree = Border(entries: seq<Entry>) | Interior(keys: seq<Slice>, kids: seq<Tree>)

  /** Where a key lives in a layer: its slice, and its length there or HAS_SUFFIX if it goes on. */
  const HAS_SUFFIX: nat := 9
  datatype Slot = Slot(slice: Slice, len: nat)

  function SlotOf(e: Entry): Slot { Slot(e.slice, if e.link.Value? then e.link.len else HAS_SUFFIX) }
  function SlotFor(k: Rest): Slot { Slot(k.slices[0], if HasNext(k) then HAS_SUFFIX else k.last) }

  predicate EntryOk(e: Entry) { e.link.Value? ==> 1 <= e.link.len <= 8 }

  // ---------------------------------------------------------------- sequences

  function InsertAt<T>(s: seq<T>, i: nat, x: T): (r: seq<T>)
    requires i <= |s|
    ensures |r| == |s| + 1
    ensures forall j {:trigger r[j]} :: 0 <= j < |r| ==> r[j] == if j < i then s[j] else if j == i then x else s[j - 1]
  {
    s[..i] + [x] + s[i..]
  }

  function RemoveAt<T>(s: seq<T>, i: nat): (r: seq<T>)
    requires i < |s|
    ensures |r| == |s| - 1
    ensures forall j :: 0 <= j < |r| ==> r[j] == s[if j < i then j else j + 1]
  {
    s[..i] + s[i + 1..]
  }

  /** InteriorNode::findChild. */
  function FindChild(keys: seq<Slice>, slice: Slice): (c: nat)
    ensures c <= |keys|
    ensures forall i :: 0 <= i < c ==> keys[i] <= slice
    ensures c < |keys| ==> slice < keys[c]
  {
    if keys == [] || slice < keys[0] then 0 else 1 + FindChild(keys[1..], slice)
  }

  predicate Increasing(keys: seq<Slice>) { forall i, j :: 0 <= i < j < |keys| ==> keys[i] < keys[j] }

  lemma FindChildIs(keys: seq<Slice>, slice: Slice, c: nat)
    requires Increasing(keys) && c <= |keys|
    requires (c > 0 ==> keys[c - 1] <= slice) && (c < |keys| ==> slice < keys[c])
    ensures FindChild(keys, slice) == c
  {
  }

  // ---------------------------------------------------------------- border nodes

  predicate Sorted(es: seq<Entry>) { forall i, j :: 0 <= i < j < |es| ==> es[i].slice <= es[j].slice }
  predicate Apart(es: seq<Entry>) { forall i, j :: 0 <= i < j < |es| ==> SlotOf(es[i]) != SlotOf(es[j]) }

  function IndexOf(es: seq<Entry>, slot: Slot): (i: nat)
    ensures i <= |es|
    ensures i < |es| ==> SlotOf(es[i]) == slot
    ensures forall j :: 0 <= j < i ==> SlotOf(es[j]) != slot
  {
    if es == [] || SlotOf(es[0]) == slot then 0 else 1 + IndexOf(es[1..], slot)
  }

  function At(es: seq<Entry>, slot: Slot): Option<Entry> {
    var i := IndexOf(es, slot);
    if i < |es| then Some(es[i]) else None
  }

  lemma AtIs(es: seq<Entry>, i: nat)
    requires Apart(es) && i < |es|
    ensures IndexOf(es, SlotOf(es[i])) == i && At(es, SlotOf(es[i])) == Some(es[i])
  {
  }

  /** Two node contents with the same entries in the same slots answer alike. */
  lemma AtNone(es: seq<Entry>, slot: Slot)
    requires forall i :: 0 <= i < |es| ==> SlotOf(es[i]) != slot
    ensures At(es, slot) == None
  {
  }

  /** Where a new slice goes: before the first slice that is not smaller. */
  function InsertionIndex(es: seq<Entry>, slice: Slice): (p: nat)
    ensures p <= |es|
    ensures forall i :: 0 <= i < p ==> es[i].slice < slice
    ensures p < |es| ==> slice <= es[p].slice
  {
    if es == [] || slice <= es[0].slice then 0 else 1 + InsertionIndex(es[1..], slice)
  }

  function Placed(es: seq<Entry>, e: Entry): (r: seq<Entry>)
    ensures |r| == |es| + 1
  {
    InsertAt(es, InsertionIndex(es, e.slice), e)
  }

  lemma PlacedKeeps(es: seq<Entry>, e: Entry)
    requires Sorted(es) && Apart(es) && At(es, SlotOf(e)) == None
    ensures Sorted(Placed(es, e)) && Apart(Placed(es, e))
  {
    hide SlotOf;
    var i := IndexOf(es, SlotOf(e));
  }

  lemma PlacedConserves(es: seq<Entry>, e: Entry)
    ensures multiset(Placed(es, e)) == multiset(es) + multiset{e}
  {
    var p := InsertionIndex(es, e.slice);
    assert es == es[..p] + es[p..];
  }

  lemma PlacedAt(es: seq<Entry>, e: Entry, slot: Slot)
    requires Sorted(es) && Apart(es) && At(es, SlotOf(e)) == None
    ensures At(Placed(es, e), slot) == if slot == SlotOf(e) then Some(e) else At(es, slot)
  {
    hide SlotOf;
    PlacedKeeps(es, e);
    hide Sorted, Apart;
    var p := InsertionIndex(es, e.slice);
    var r := Placed(es, e);
    if slot == SlotOf(e) {
      AtIs(r, p);
    } else {
      var i := IndexOf(es, slot);
      if i < |es| {
        AtIs(r, if i < p then i else i + 1);
      } else {
        AtNone(r, slot);
      }
    }
  }

  lemma ReplacedAt(es: seq<Entry>, i: nat, e: Entry, slot: Slot)
    requires Apart(es) && i < |es| && SlotOf(es[i]) == SlotOf(e)
    ensures Apart(es[i := e]) && (Sorted(es) ==> Sorted(es[i := e]))
    ensures At(es[i := e], slot) == if slot == SlotOf(e) then Some(e) else At(es, slot)
  {
    var r := es[i := e];
    assert forall j :: 0 <= j < |r| ==> SlotOf(r[j]) == SlotOf(es[j]) && r[j].slice == es[j].slice;
    var j := IndexOf(es, slot);
    if j < |es| {
      AtIs(es, i);
      AtIs(r, j);
    } else {
      AtNone(r, slot);
    }
  }

  lemma RemovedAt(es: seq<Entry>, i: nat, slot: Slot)
    requires Apart(es) && i < |es|
    ensures Apart(RemoveAt(es, i)) && (Sorted(es) ==> Sorted(RemoveAt(es, i)))
    ensures At(RemoveAt(es, i), slot) == if slot == SlotOf(es[i]) then None else At(es, slot)
  {
    hide SlotOf;
    RemovedKeeps(es, i);
    hide Sorted, Apart;
    var r := RemoveAt(es, i);
    var j := IndexOf(es, slot);
    if j == |es| || j == i {
      AtIs(es, i);
      NotThere(es, i, slot);
    } else {
      AtIs(es, i);
      AtIs(r, if j < i then j else j - 1);
    }
  }

  lemma RemovedKeeps(es: seq<Entry>, i: nat)
    requires Apart(es) && i < |es|
    ensures Apart(RemoveAt(es, i)) && (Sorted(es) ==> Sorted(RemoveAt(es, i)))
  {
    hide SlotOf;
  }

  lemma NotThere(es: seq<Entry>, i: nat, slot: Slot)
    requires Apart(es) && i < |es| && (IndexOf(es, slot) == |es| || IndexOf(es, slot) == i)
    ensures At(RemoveAt(es, i), slot) == None
  {
    AtNone(RemoveAt(es, i), slot);
  }

  /** A part of a node answers for the slots it holds. */
  lemma PartAt(es: seq<Entry>, a: nat, b: nat, slot: Slot)
    requires Apart(es) && a <= b <= |es|
    requires forall i :: 0 <= i < |es| && SlotOf(es[i]) == slot ==> a <= i < b
    ensures At(es, slot) == At(es[a..b], slot)
  {
    var part := es[a..b];
    assert Apart(part);
    var i := IndexOf(es, slot);
    hide SlotOf, Apart;
    if i < |es| {
      assert part[i - a] == es[i];
      AtIs(part, i - a);
    } else {
      AtNone(part, slot);
    }
  }

  /**
    Cutting a sorted node where the slice grows: lookups go left or right by comparing with the right half's
    first slice.
   */
  lemma CutAt(es: seq<Entry>, n: nat, slot: Slot)
    requires Sorted(es) && Apart(es) && 0 < n < |es| && es[n - 1].slice < es[n].slice
    ensures At(es, slot) == if slot.slice < es[n].slice then At(es[..n], slot) else At(es[n..], slot)
  {
    assert es[..n] == es[0..n] && es[n..] == es[n..|es|];
    if slot.slice < es[n].slice {
      PartAt(es, 0, n, slot);
    } else {
      PartAt(es, n, |es|, slot);
    }
  }

  lemma CutKeeps(es: seq<Entry>, n: nat)
    requires Sorted(es) && Apart(es) && n <= |es|
    ensures Sorted(es[..n]) && Sorted(es[n..]) && Apart(es[..n]) && Apart(es[n..])
  {
  }

  // ---------------------------------------------------------------- at most nine entries with the same slice

  lemma {:induction false} Pigeonhole(s: seq<int>, n: nat)
    requires (forall i :: 0 <= i < |s| ==> 1 <= s[i] <= n) && (forall i, j :: 0 <= i < j < |s| ==> s[i] != s[j])
    ensures |s| <= n
  {
    if s != [] {
      assert 1 <= s[0] <= n;
      if n in s {
        var i :| 0 <= i < |s| && s[i] == n;
        Pigeonhole(RemoveAt(s, i), n - 1);
      } else {
        Pigeonhole(s, n - 1);
      }
    }
  }

  /** Lengths 1 to 8 and one entry that goes on: a slice occurs at most nine times. */
  lemma AtMostNine(es: seq<Entry>, a: nat, b: nat)
    requires Sorted(es) && Apart(es) && (forall i :: 0 <= i < |es| ==> EntryOk(es[i]))
    requires a <= b < |es| && es[a].slice == es[b].slice
    ensures b - a < HAS_SUFFIX
  {
    var lens: seq<int> := seq(b - a + 1, i requires 0 <= i <= b - a => SlotOf(es[a + i]).len);
    assert forall j :: a <= j <= b ==> es[j].slice == es[a].slice;
    assert forall i :: 0 <= i < |lens| ==> SlotOf(es[a + i]) == Slot(es[a].slice, lens[i]);
    Pigeonhole(lens, HAS_SUFFIX);
  }
}
