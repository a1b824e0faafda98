/**
  Border nodes as the source keeps them: fifteen slots updated in place and a permutation that orders
  the ones in use (server/enclave/masstree/include/masstree_node.h, masstree_insert.cpp).  Each method
  is proved against the functions on ordered entries that the tree model uses.

  The source's parallel arrays key_len, key_slice, lv and key_suffixes are one array of slots.
 */
module BorderNodes {
  import opened Base
  import opened Keys
  import opened Layer
  import opened SplitPoint
  import opened LayerOps
  import opened Masstree
  import opened Nibbles
  import opened Permutations

  const LAYER_LEN: nat := 255
  /** markKeyRemoved adds this to key_len. */
  const REMOVED: nat := 9

  datatype LinkOrValue = Null | ToValue(ref: Ref) | ToLayer(root: Tree)
  datatype Cell = Cell(len: nat, slice: Slice, lv: LinkOrValue, suffix: Option<Rest>)

  const EMPTY_CELL: Cell := Cell(0, 0, Null, None)

  predicate Free(c: Cell) { c.len == 0 || 10 <= c.len <= 18 }

  /** A slot that holds an entry. */
  predicate InUse(c: Cell) {
    || (1 <= c.len <= 8 && c.lv.ToValue?)
    || (c.len == HAS_SUFFIX && c.lv.ToValue? && c.suffix.Some?)
    || (c.len == LAYER_LEN && c.lv.ToLayer?)
  }

  function Decode(c: Cell): Entry
    requires InUse(c)
  {
    Entry(c.slice,
          if c.len == LAYER_LEN then Lower(c.lv.root)
          else if c.len == HAS_SUFFIX then Suffix(c.suffix.value, c.lv.ref)
          else Value(c.len, c.lv.ref))
  }

  /** The slot contents for a new key: split_keys_among and insert_to_border build them alike. */
  function CellFor(k: Rest, ref: Ref): (c: Cell)
    ensures InUse(c) && Decode(c) == EntryFor(k, ref)
  {
    if HasNext(k) then Cell(HAS_SUFFIX, k.slices[0], ToValue(ref), Some(Next(k)))
    else Cell(k.last, k.slices[0], ToValue(ref), None)
  }

  predicate ListOk(cells: seq<Cell>, list: seq<Nibble>) {
    && |cells| == MAX_KEYS
    && (forall k :: 0 <= k < |list| ==> list[k] < MAX_KEYS && InUse(cells[list[k]]))
    && (forall j, k :: 0 <= j < k < |list| ==> list[j] != list[k])
    && (forall i :: 0 <= i < MAX_KEYS && i !in list ==> Free(cells[i]))
  }

  function EntriesOf(cells: seq<Cell>, list: seq<Nibble>): (es: seq<Entry>)
    requires ListOk(cells, list)
    ensures |es| == |list|
    ensures forall k :: 0 <= k < |es| ==> es[k] == Decode(cells[list[k]])
  {
    seq(|list|, k requires 0 <= k < |list| => Decode(cells[list[k]]))
  }

  /** fromSorted. */
  function Identity(n: nat): (l: seq<Nibble>)
    requires n <= MAX_KEYS
    ensures |l| == n
    ensures forall i :: 0 <= i < n ==> l[i] == i
  {
    seq(n, i requires 0 <= i < n => i)
  }

  // ---------------------------------------------------------------- facts about slots

  /** Slot numbers that differ pairwise: fewer than fifteen leave one free. */
  lemma {:induction false} SomeFree(list: seq<int>, n: nat)
    requires forall i :: 0 <= i < n ==> i in list
    ensures n <= |list|
  {
    if n > 0 {
      assert n - 1 in list;
      var k :| 0 <= k < |list| && list[k] == n - 1;
      var rest := RemoveAt(list, k);
      forall i | 0 <= i < n - 1 ensures i in rest {
        assert i in list;
        var j :| 0 <= j < |list| && list[j] == i;
        assert rest[if j < k then j else j - 1] == i;
      }
      SomeFree(rest, n - 1);
    }
  }

  lemma FillSlotOk(cells: seq<Cell>, list: seq<Nibble>, at: nat, slot: nat, c: Cell)
    requires ListOk(cells, list) && at <= |list| && slot < MAX_KEYS && slot !in list && InUse(c)
    ensures ListOk(cells[slot := c], InsertAt(list, at, slot))
  {
    hide InUse, Free;
    var cells', list' := cells[slot := c], InsertAt(list, at, slot);
    forall i | 0 <= i < MAX_KEYS && i !in list' ensures Free(cells'[i]) {
      forall k | 0 <= k < |list| ensures list[k] != i {
        assert list'[if k < at then k else k + 1] == list[k];
      }
      assert list'[at] == slot;
    }
  }

  /** A free slot filled and entered into the permutation is an entry inserted. */
  lemma FillSlot(cells: seq<Cell>, list: seq<Nibble>, at: nat, slot: nat, c: Cell)
    requires ListOk(cells, list) && at <= |list| && slot < MAX_KEYS && slot !in list && InUse(c)
    ensures ListOk(cells[slot := c], InsertAt(list, at, slot))
    ensures EntriesOf(cells[slot := c], InsertAt(list, at, slot)) == InsertAt(EntriesOf(cells, list), at, Decode(c))
  {
    FillSlotOk(cells, list, at, slot, c);
    hide Free, Decode;
    var cells', list' := cells[slot := c], InsertAt(list, at, slot);
    var es, es' := EntriesOf(cells, list), EntriesOf(cells', list');
    forall k | 0 <= k < |es'| ensures es'[k] == InsertAt(es, at, Decode(c))[k] {
      assert k != at ==> list'[k] != slot;
    }
  }

  /** A slot marked removed and taken out of the permutation is an entry removed. */
  lemma ClearSlot(cells: seq<Cell>, list: seq<Nibble>, at: nat, c: Cell)
    requires ListOk(cells, list) && at < |list| && Free(c)
    ensures ListOk(cells[list[at] := c], RemoveAt(list, at))
    ensures EntriesOf(cells[list[at] := c], RemoveAt(list, at)) == RemoveAt(EntriesOf(cells, list), at)
  {
    hide InUse, Free, Decode;
    var cells', list' := cells[list[at] := c], RemoveAt(list, at);
    forall i | 0 <= i < MAX_KEYS && i !in list' ensures Free(cells'[i]) {
      forall k | 0 <= k < |list| && k != at ensures list[k] != i {
        assert list'[if k < at then k else k - 1] == list[k];
      }
      if i != list[at] {
        assert i !in list;
      }
    }
  }

  /** Slots in order, with an identity permutation, read as they stand. */
  lemma InOrder(cells: seq<Cell>, es: seq<Entry>)
    requires |cells| == MAX_KEYS && |es| <= MAX_KEYS
    requires forall i :: 0 <= i < |es| ==> InUse(cells[i]) && Decode(cells[i]) == es[i]
    requires forall i :: |es| <= i < MAX_KEYS ==> Free(cells[i])
    ensures ListOk(cells, Identity(|es|)) && EntriesOf(cells, Identity(|es|)) == es
  {
    hide InUse, Free, Decode;
    var list := Identity(|es|);
    forall i | 0 <= i < MAX_KEYS ensures i in list || i >= |es| {
      assert i < |es| ==> list[i] == i;
    }
  }

  /** All fifteen slots rearranged into permutation order. */
  lemma SortedSlots(cells: seq<Cell>, list: seq<Nibble>, cells': seq<Cell>)
    requires ListOk(cells, list) && |list| == |cells'| == MAX_KEYS && forall i :: 0 <= i < MAX_KEYS ==>
          cells'[i] == cells[list[i]]
    ensures ListOk(cells', Identity(MAX_KEYS)) && EntriesOf(cells', Identity(MAX_KEYS)) == EntriesOf(cells, list)
  {
    InOrder(cells', EntriesOf(cells, list));
  }

  lemma SpreadDecodes(cells: seq<Cell>, es: seq<Entry>, at: nat, c: Cell)
    requires ListOk(cells, Identity(MAX_KEYS)) && EntriesOf(cells, Identity(MAX_KEYS)) == es
    requires InUse(c) && at == InsertionIndex(es, Decode(c).slice)
    ensures forall i {:trigger InsertAt(cells, at, c)[i]} :: 0 <= i < ORDER ==>
              InUse(InsertAt(cells, at, c)[i]) && Decode(InsertAt(cells, at, c)[i]) == Placed(es, Decode(c))[i]
  {
    var list := Identity(MAX_KEYS);
    forall i | 0 <= i < MAX_KEYS ensures InUse(cells[i]) && Decode(cells[i]) == es[i] {
      assert list[i] == i;
    }
  }

  lemma SplitIs(es: seq<Entry>, e: Entry, n: nat)
    requires FullNode(es) && |Table(es, MAX_KEYS)| >= 2
    requires e.slice == MinSlice(Table(es, MAX_KEYS)) ==> |Table(es, MAX_KEYS)| >= 2
    requires n == Point(e.slice, Table(es, MAX_KEYS))
    ensures 1 <= n <= MAX_KEYS && |Placed(es, e)| == ORDER
    ensures SplitBorder(es, e) == Two(Border(Placed(es, e)[..n]), Placed(es, e)[n].slice, Border(Placed(es, e)[n..]))
  {
    PointSeparates(es, e);
  }

  /** The slot of one entry overwritten for another with the same place in the order. */
  lemma ReplaceSlot(cells: seq<Cell>, list: seq<Nibble>, at: nat, c: Cell)
    requires ListOk(cells, list) && at < |list| && InUse(c)
    ensures ListOk(cells[list[at] := c], list)
    ensures EntriesOf(cells[list[at] := c], list) == EntriesOf(cells, list)[at := Decode(c)]
  {
    hide Free, InUse, Decode;
    var cells' := cells[list[at] := c];
    assert forall i :: 0 <= i < MAX_KEYS && i !in list ==> cells'[i] == cells[i];
  }

  // ---------------------------------------------------------------- the node

  datatype Hit = Missing | HitValue(ref: Ref) | HitLayer(root: Tree)

  /** What the entry in a key's slot means to a search. */
  function HitOf(e: Option<Entry>, k: Rest): Hit
    requires e.Some? && e.value.link.Suffix? ==> HasNext(k)
  {
    match e
    case None => Missing
    case Some(entry) =>
      match entry.link
      case Value(_, ref) => HitValue(ref)
      case Suffix(rest, ref) => if IsSame(rest, Next(k)) then HitValue(ref) else Missing
      case Lower(root) => HitLayer(root)
  }

  /** The tests a search makes on one slot. */
  lemma Probe(c: Cell, k: Rest)
    requires InUse(c)
    ensures SlotOf(Decode(c)) == SlotFor(k) <==>
            c.slice == k.slices[0] && if HasNext(k) then c.len == HAS_SUFFIX || c.len == LAYER_LEN else c.len == k.last
    ensures Decode(c).link.Suffix? <==> c.len == HAS_SUFFIX
    ensures if c.len == LAYER_LEN then c.lv.ToLayer? else c.lv.ToValue?
    ensures c.len == HAS_SUFFIX ==> c.suffix.Some?
    ensures c.len == HAS_SUFFIX && HasNext(k) ==>
              HitOf(Some(Decode(c)), k) == if IsSame(c.suffix.value, Next(k)) then HitValue(c.lv.ref) else Missing
    ensures c.len == LAYER_LEN ==> HitOf(Some(Decode(c)), k) == HitLayer(c.lv.root)
    ensures c.len < HAS_SUFFIX ==> HitOf(Some(Decode(c)), k) == HitValue(c.lv.ref)
  {
  }

  lemma ProbeHits(es: seq<Entry>, i: nat, k: Rest)
    requires Apart(es) && i < |es| && SlotOf(es[i]) == SlotFor(k)
    ensures At(es, SlotFor(k)) == Some(es[i])
    ensures es[i].link.Suffix? ==> HasNext(k)
  {
    AtIs(es, i);
  }

  lemma ProbesMiss(es: seq<Entry>, k: Rest)
    requires forall j :: 0 <= j < |es| ==> SlotOf(es[j]) != SlotFor(k) || HitOf(Some(es[j]), k) == Missing
    ensures At(es, SlotFor(k)).Some? && At(es, SlotFor(k)).value.link.Suffix? ==> HasNext(k)
    ensures HitOf(At(es, SlotFor(k)), k) == Missing
  {
  }

  /** The hit is the tree's answer: the record, the layer that goes on answering, or nothing. */
  ghost predicate Answers(hit: Hit, es: seq<Entry>, k: Rest)
    requires LayerOk(Border(es))
  {
    match hit
    case Missing => Masstree.Get(Border(es), k) == None
    case HitValue(ref) => Masstree.Get(Border(es), k) == Some(ref)
    case HitLayer(root) => HasNext(k) && LayerOk(root) && Masstree.Get(Border(es), k) == Masstree.Get(root, Next(k))
  }

  /** A search of a layer that is one border node decides the lookup, or says where it goes on. */
  lemma HitAnswers(es: seq<Entry>, k: Rest)
    requires LayerOk(Border(es))
    ensures At(es, SlotFor(k)).Some? && At(es, SlotFor(k)).value.link.Suffix? ==> HasNext(k)
    ensures Answers(HitOf(At(es, SlotFor(k)), k), es, k)
  {
    assert Reach(Border(es), SlotFor(k)) == At(es, SlotFor(k));
  }

  class BorderNode {
    const slots: array<Cell>
    const permutation: Permutation

    ghost predicate Valid()
      reads this, slots, permutation
    {
      slots.Length == MAX_KEYS && permutation.Valid() && ListOk(slots[..], permutation.List())
    }

    /** The entries in permutation order. */
    ghost function Entries(): (es: seq<Entry>)
      reads this, slots, permutation
      requires Valid()
      ensures |es| == |permutation.List()|
    {
      EntriesOf(slots[..], permutation.List())
    }

    /** A new layer's first node: sizeOne, and the key in slot 0 (start_new_tree, handle_break_invariant). */
    constructor (k: Rest, ref: Ref)
      ensures Valid() && fresh(slots) && fresh(permutation) && Entries() == [EntryFor(k, ref)]
    {
      slots := new Cell[MAX_KEYS](_ => EMPTY_CELL);
      permutation := new Permutation();
      new;
      slots[0] := CellFor(k, ref);
      assert slots[..][0] == CellFor(k, ref);
      assert forall i :: 0 < i < MAX_KEYS ==> slots[..][i] == EMPTY_CELL;
      assert permutation.List() == Identity(1);
      InOrder(slots[..], [EntryFor(k, ref)]);
    }

    /** searchLinkOrValueWithIndex: the tree's answer, for the node of a layer. */
    method Search(k: Rest) returns (hit: Hit, index: nat)
      requires Valid() && Apart(Entries())
      ensures At(Entries(), SlotFor(k)).Some? && At(Entries(), SlotFor(k)).value.link.Suffix? ==> HasNext(k)
      ensures hit == HitOf(At(Entries(), SlotFor(k)), k)
      ensures LayerOk(Border(Entries())) ==> Answers(hit, Entries(), k)
      ensures !hit.Missing? ==> index in permutation.List() && Decode(slots[index]) == At(Entries(), SlotFor(k)).value
    {
      ghost var es, list := Entries(), permutation.List();
      hide Answers, LayerOk, HitOf, InUse, Decode, SlotOf, SlotFor, Free, At;
      if LayerOk(Border(es)) { HitAnswers(es, k); }
      var num := permutation.GetNumKeys();
      var i := 0;
      while i < num
        invariant i <= num == |es|
        invariant forall j :: 0 <= j < i ==> SlotOf(es[j]) != SlotFor(k) || HitOf(Some(es[j]), k) == Missing
      {
        var t := permutation.GetKeyIndex(i);
        var c := slots[t];
        assert t == list[i] && slots[..][t] == c && es[i] == Decode(c);
        Probe(c, k);
        if c.slice == k.slices[0] {
          if !HasNext(k) {
            if c.len == k.last {
              ProbeHits(es, i, k);
              return HitValue(c.lv.ref), t;
            }
          } else if c.len == HAS_SUFFIX {
            if IsSame(c.suffix.value, Next(k)) {
              ProbeHits(es, i, k);
              return HitValue(c.lv.ref), t;
            }
          } else if c.len == LAYER_LEN {
            ProbeHits(es, i, k);
            return HitLayer(c.lv.root), t;
          }
        }
        i := i + 1;
      }
      ProbesMiss(es, k);
      return Missing, 0;
    }

    /** insertPoint: the first slot that is unused or marked removed. */
    method InsertPoint() returns (i: nat, reuse: bool)
      requires Valid() && |Entries()| < MAX_KEYS
      ensures i < MAX_KEYS && i !in permutation.List()
      ensures reuse <==> slots[i].len != 0
    {
      ghost var list := permutation.List();
      i := 0;
      while i < MAX_KEYS
        invariant i <= MAX_KEYS
        invariant forall j :: 0 <= j < i ==> j in list
      {
        assert i !in list ==> Free(slots[..][i]);
        if slots[i].len == 0 { return i, false; }
        if 10 <= slots[i].len <= 18 { return i, true; }
        i := i + 1;
      }
      SomeFree(list, MAX_KEYS);
      assert false;
    }

    /** insert_to_border: the new entry goes before the first slice that is not smaller. */
    method InsertToBorder(k: Rest, ref: Ref)
      requires Valid() && |Entries()| < MAX_KEYS
      modifies slots, permutation
      ensures Valid() && Entries() == Placed(old(Entries()), EntryFor(k, ref))
    {
      ghost var es, cells, list := Entries(), slots[..], permutation.List();
      var num := permutation.GetNumKeys();
      var at := 0;
      while at < num
        invariant at <= num
        invariant forall j :: 0 <= j < at ==> es[j].slice < k.slices[0]
        invariant slots[..] == cells && permutation.Valid() && permutation.List() == list
      {
        var t := permutation.GetKeyIndex(at);
        assert es[at] == Decode(cells[t]);
        if slots[t].slice >= k.slices[0] { break; }
        at := at + 1;
      }
      assert at == InsertionIndex(es, k.slices[0]);
      var slot, _ := InsertPoint();
      slots[slot] := CellFor(k, ref);
      permutation.Insert(at, slot);
      FillSlot(cells, list, at, slot, CellFor(k, ref));
      assert slots[..] == cells[slot := CellFor(k, ref)];
    }
  
    /** markKeyRemoved, removeIndex and setPermutation. */
    method RemoveKey(index: nat)
      requires Valid() && Apart(Entries()) && index in permutation.List() && slots[index].len <= HAS_SUFFIX
      modifies slots, permutation
      ensures Valid()
      ensures Entries() == RemoveAt(old(Entries()), IndexOf(old(Entries()), SlotOf(old(Decode(slots[index])))))
    {
      ghost var es, cells, list := Entries(), slots[..], permutation.List();
      assert InUse(cells[index]);
      var c := slots[index].(len := slots[index].len + REMOVED);
      slots[index] := c;
      permutation.RemoveIndex(index);
      ghost var at :| 0 <= at < |list| && list[at] == index && permutation.List() == RemoveAt(list, at);
      ClearSlot(cells, list, at, c);
      AtIs(es, at);
      assert slots[..] == cells[index := c];
    }

    /** sort: the slots of a full node into permutation order. */
    method Sort()
      requires Valid() && |Entries()| == MAX_KEYS
      modifies slots, permutation
      ensures Valid() && Entries() == old(Entries()) && permutation.List() == Identity(MAX_KEYS)
    {
      ghost var cells, list := slots[..], permutation.List();
      hide ListOk, EntriesOf, Unpack;
      var temp := CellsInOrder();
      ghost var sorted := temp[..];
      for i := 0 to MAX_KEYS
        invariant temp[..] == sorted
        invariant slots[..i] == sorted[..i]
      {
        slots[i] := temp[i];
        assert slots[..i + 1] == slots[..i] + [slots[i]] && sorted[..i + 1] == sorted[..i] + [sorted[i]];
      }
      var p := new Permutation.FromSorted(MAX_KEYS);
      permutation.Store(p);
      assert slots[..] == slots[..MAX_KEYS] && sorted == sorted[..MAX_KEYS];
      SortedSlots(cells, list, sorted);
      assert permutation.List() == Identity(MAX_KEYS);
    }

    /** The first loop of sort: the slots gathered in permutation order. */
    method CellsInOrder() returns (temp: array<Cell>)
      requires Valid() && |Entries()| == MAX_KEYS
      ensures fresh(temp) && temp.Length == MAX_KEYS
      ensures forall i {:trigger temp[..][i]} :: 0 <= i < MAX_KEYS ==> temp[..][i] == slots[permutation.List()[i]]
    {
      ghost var list := permutation.List();
      temp := new Cell[MAX_KEYS](_ => EMPTY_CELL);
      for i := 0 to MAX_KEYS
        invariant forall j :: 0 <= j < i ==> temp[j] == slots[list[j]]
      {
        var t := permutation.GetKeyIndex(i);
        assert t == list[i];
        temp[i] := slots[t];
      }
    }
  
    /** A node about to be filled by a split. */
    constructor Blank()
      ensures fresh(slots) && fresh(permutation) && slots.Length == MAX_KEYS
    {
      slots := new Cell[MAX_KEYS](_ => EMPTY_CELL);
      permutation := new Permutation();
    }

    /** Where the new slice goes among the sorted slots. */
    method FindPlace(slice: Slice) returns (at: nat)
      requires Valid() && |Entries()| == MAX_KEYS && permutation.List() == Identity(MAX_KEYS)
      ensures at == InsertionIndex(Entries(), slice)
    {
      hide InUse, Unpack;
      ghost var es := Entries();
      assert forall i {:trigger es[i]} :: 0 <= i < MAX_KEYS ==> es[i].slice == slots[i].slice;
      at := 0;
      while at < MAX_KEYS && slots[at].slice < slice
        invariant at <= MAX_KEYS && forall j :: 0 <= j < at ==> es[j].slice < slice
      {
        assert es[at].slice == slots[at].slice;
        at := at + 1;
      }
      assert at < MAX_KEYS ==> es[at].slice == slots[at].slice;
    }

    /** The slots with a gap left at `at`, which is then filled. */
    method Spread(at: nat, c: Cell) returns (temp: array<Cell>)
      requires slots.Length == MAX_KEYS && at <= MAX_KEYS
      ensures fresh(temp) && temp.Length == ORDER && temp[..] == InsertAt(slots[..], at, c)
    {
      temp := new Cell[ORDER](_ => EMPTY_CELL);
      var i, j := 0, 0;
      while i < MAX_KEYS
        invariant i <= MAX_KEYS && j == if i <= at then i else i + 1
        invariant forall m {:trigger temp[m]} :: 0 <= m < j && m != at ==> temp[m] == slots[if m < at then m else m - 1]
      {
        if j == at { j := j + 1; }
        temp[j] := slots[i];
        i, j := i + 1, j + 1;
      }
      temp[at] := c;
    }

    /** The slots reset and filled from `temp[a..b]`, with the identity permutation. */
    method FillFrom(temp: array<Cell>, a: nat, b: nat, ghost es: seq<Entry>)
      requires slots.Length == MAX_KEYS && temp != slots && a <= b <= temp.Length && b - a == |es| <= MAX_KEYS
      requires forall i {:trigger es[i]} :: 0 <= i < |es| ==> InUse(temp[..][a + i]) && Decode(temp[..][a + i]) == es[i]
      modifies slots, permutation
      ensures Valid() && Entries() == es
    {
      hide EntriesOf, Unpack, InUse, Decode;
      for i := 0 to MAX_KEYS
        invariant forall j :: 0 <= j < i ==> slots[j] == EMPTY_CELL
        invariant temp[..] == old(temp[..])
      {
        slots[i] := EMPTY_CELL;
      }
      var i, j := a, 0;
      while i < b
        invariant a <= i <= b && j == i - a
        invariant temp[..] == old(temp[..])
        invariant forall m :: 0 <= m < j ==> slots[m] == temp[a + m]
        invariant forall m :: j <= m < MAX_KEYS ==> slots[m] == EMPTY_CELL
      {
        slots[j] := temp[i];
        i, j := i + 1, j + 1;
      }
      var p := new Permutation.FromSorted(b - a);
      permutation.Store(p);
      forall m | 0 <= m < |es| ensures InUse(slots[..][m]) && Decode(slots[..][m]) == es[m] {
        ghost var x := es[m];
        assert slots[..][m] == temp[..][a + m];
        assert Decode(temp[..][a + m]) == es[m];
      }
      InOrder(slots[..], es);
      assert permutation.List() == Identity(|es|);
    }
  
    /** All sixteen entries of a split in order. */
    method Overfull(k: Rest, ref: Ref) returns (temp: array<Cell>)
      requires Valid() && |Entries()| == MAX_KEYS
      modifies slots, permutation
      ensures Valid() && Entries() == old(Entries()) && permutation.List() == Identity(MAX_KEYS)
      ensures fresh(temp) && temp.Length == ORDER
      ensures forall i {:trigger temp[..][i]} :: 0 <= i < ORDER ==>
                InUse(temp[..][i]) && Decode(temp[..][i]) == Placed(old(Entries()), EntryFor(k, ref))[i]
    {
      hide InUse, Unpack, InsertAt, InsertionIndex;
      ghost var es := Entries();
      Sort();
      var at := FindPlace(k.slices[0]);
      temp := Spread(at, CellFor(k, ref));
      SpreadDecodes(slots[..], es, at, CellFor(k, ref));
    }

    /** The slices of the sorted slots, and where to cut. */
    method Cut(slice: Slice) returns (n: nat)
      requires Valid() && FullNode(Entries()) && permutation.List() == Identity(MAX_KEYS)
      ensures |Table(Entries(), MAX_KEYS)| >= 2
      ensures n == Point(slice, Table(Entries(), MAX_KEYS))
    {
      ghost var es := Entries();
      var slices := seq(MAX_KEYS, i requires 0 <= i < MAX_KEYS reads this, slots => slots[i].slice);
      assert forall i {:trigger es[i]} :: 0 <= i < MAX_KEYS ==> es[i].slice == slots[i].slice;
      TwoSlices(es);
      hide FullNode, InUse, Unpack, Table, Point;
      var table, found := CreateSliceTable(slices, es);
      n := FindSplitPoint(slice, table, found);
    }

    /**
      split_keys_among: the node and a new right neighbour share the entries and the new key, cut at the
      split point.  The source stores cursor.size for the slice of a key that goes on; this stores the
      slice, as insert_to_border does (see MasstreeMap.SplitLosesLongKeys).
     */
    method SplitKeysAmong(k: Rest, ref: Ref) returns (node1: BorderNode)
      requires Valid() && FullNode(Entries())
      modifies slots, permutation
      ensures fresh(node1) && fresh(node1.slots) && fresh(node1.permutation) && Valid() && node1.Valid()
      ensures var a := SplitBorder(old(Entries()), EntryFor(k, ref));
              a.Two? && a.left == Border(Entries()) && a.right == Border(node1.Entries())
    {
      ghost var es := Entries();
      var temp := Overfull(k, ref);
      var n := Cut(k.slices[0]);
      ghost var all := Placed(es, EntryFor(k, ref));
      SplitIs(es, EntryFor(k, ref), n);
      assert slots.Length == MAX_KEYS;
      hide *;
      node1 := Share(temp, n, all);
    }

    /** The first `n` cells stay here and the others move to the new right neighbour. */
    method Share(temp: array<Cell>, n: nat, ghost all: seq<Entry>) returns (node1: BorderNode)
      requires slots.Length == MAX_KEYS && temp != slots && temp.Length == |all| == ORDER && 1 <= n <= MAX_KEYS
      requires forall i {:trigger temp[..][i]} :: 0 <= i < ORDER ==> InUse(temp[..][i]) && Decode(temp[..][i]) == all[i]
      modifies slots, permutation
      ensures fresh(node1) && fresh(node1.slots) && fresh(node1.permutation) && Valid() && node1.Valid()
      ensures Entries() == all[..n] && node1.Entries() == all[n..]
    {
      hide InUse, Decode, ListOk, EntriesOf, Unpack;
      assert forall i {:trigger all[..n][i]} :: 0 <= i < n ==> all[..n][i] == all[i];
      assert forall i {:trigger all[n..][i]} :: 0 <= i < ORDER - n ==> all[n..][i] == all[n + i];
      node1 := new BorderNode.Blank();
      node1.FillFrom(temp, n, ORDER, all[n..]);
      FillFrom(temp, 0, n, all[..n]);
    }
  
    /**
      The store of a new lower layer's root over a suffix (handle_break_invariant), or of a changed root
      over the old one (create_root_with_children, delete_borderNode_in_remove).
     */
    method SetLower(index: nat, root: Tree)
      requires Valid() && Apart(Entries()) && index in permutation.List() && slots[index].len >= HAS_SUFFIX
      modifies slots
      ensures Valid()
      ensures var slot := SlotOf(old(Decode(slots[index])));
              Entries() == old(Entries())[IndexOf(old(Entries()), slot) := Entry(slot.slice, Lower(root))]
    {
      Overwrite(index, Cell(LAYER_LEN, slots[index].slice, ToLayer(root), None));
    }

    /** handle_delete_layer_in_remove, on the node above: the folded key becomes a suffix. */
    method SetSuffix(index: nat, rest: Rest, ref: Ref)
      requires Valid() && Apart(Entries()) && index in permutation.List() && slots[index].len == LAYER_LEN
      modifies slots
      ensures Valid()
      ensures var slot := SlotOf(old(Decode(slots[index])));
              Entries() == old(Entries())[IndexOf(old(Entries()), slot) := Entry(slot.slice, Suffix(rest, ref))]
    {
      Overwrite(index, Cell(HAS_SUFFIX, slots[index].slice, ToValue(ref), Some(rest)));
    }

    method Overwrite(index: nat, c: Cell)
      requires Valid() && Apart(Entries()) && index in permutation.List() && InUse(c) && InUse(slots[index])
      requires SlotOf(Decode(c)) == SlotOf(Decode(slots[index]))
      modifies slots
      ensures Valid()
      ensures Entries() == old(Entries())[IndexOf(old(Entries()), SlotOf(Decode(c))) := Decode(c)]
    {
      ghost var es, cells, list := Entries(), slots[..], permutation.List();
      ghost var at :| 0 <= at < |list| && list[at] == index;
      assert es[at] == Decode(cells[index]);
      slots[index] := c;
      ReplaceSlot(cells, list, at, c);
      AtIs(es, at);
      assert slots[..] == cells[index := c];
    }
  }
}
