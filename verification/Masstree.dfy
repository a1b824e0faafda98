/**
  The whole tree: layers linked by 8-byte slices, seen as a map from byte strings to records
  (server/enclave/masstree/masstree_get.cpp, masstree_insert.cpp, masstree_remove.cpp, masstree.cpp).
 */
module Masstree {
  import opened Base
  import opened Keys
  import opened Layer
  import opened LayerOps
  import opened LayerLookup
  import opened LayerRemove

  // ---------------------------------------------------------------- lookup

  /** What a layer's entry means for key `k`: its record, or the next layer's answer. */
  function Answer(e: Option<Entry>, k: Rest): Option<Ref>
    requires e.Some? ==> SlotOf(e.value) == SlotFor(k) && EntryOk(e.value) && LinkOk(e.value.link)
    decreases |k.slices|, 0
  {
    match e
    case None => None
    case Some(entry) =>
      match entry.link
      case Value(_, ref) => Some(ref)
      case Suffix(rest, ref) => if IsSame(rest, Next(k)) then Some(ref) else None
      case Lower(root) => Get(root, Next(k))
  }

  /** masstree_get. */
  function Get(t: Tree, k: Rest): Option<Ref>
    requires LayerOk(t)
    decreases |k.slices|, 1
  {
    Answer(Reach(t, SlotFor(k)), k)
  }

  // ---------------------------------------------------------------- insertion

  /** How a border node stores a key: to its end, or with the rest as a suffix. */
  function EntryFor(k: Rest, ref: Ref): (e: Entry)
    ensures SlotOf(e) == SlotFor(k) && EntryOk(e) && LinkOk(e.link)
  {
    Entry(k.slices[0], if HasNext(k) then Suffix(Next(k), ref) else Value(k.last, ref))
  }

  lemma SingletonOk(k: Rest, ref: Ref)
    ensures LayerOk(Border([EntryFor(k, ref)]))
  {
  }

  /** masstree_insert below the root: the new root of the layer. */
  function Insert(t: Tree, k: Rest, ref: Ref): Tree
    requires LayerOk(t)
    decreases |k.slices|
  {
    match Reach(t, SlotFor(k))
    case None => Rooted(AddEntry(t, EntryFor(k, ref)))
    case Some(e) =>
      match e.link
      case Value(_, _) => t
      case Suffix(rest, held) =>
        if IsSame(rest, Next(k)) then t
        else
          // handle_break_invariant: the old key moves down into a new layer
          SingletonOk(rest, held);
          PutLink(t, SlotFor(k), Lower(Insert(Border([EntryFor(rest, held)]), Next(k), ref)))
      case Lower(root) => PutLink(t, SlotFor(k), Lower(Insert(root, Next(k), ref)))
  }

  // ---------------------------------------------------------------- removal

  /** A layer after a removal: still there, folded back into the layer above, or (layer 0 only) empty. */
  datatype Removed = Stay(root: Tree) | Fold(rest: Rest, ref: Ref) | Gone

  /** handle_delete_layer_in_remove: the only key of a layer as a suffix for the layer above. */
  function Folded(e: Entry): Rest
    requires EntryOk(e) && !e.link.Lower?
  {
    match e.link
    case Value(len, _) => Key([e.slice], len)
    case Suffix(rest, _) => Key([e.slice] + rest.slices, rest.last)
  }

  predicate AtLower(t: Tree, k: Rest)
    requires Shaped(t)
  {
    Reach(t, SlotFor(k)).Some? && Reach(t, SlotFor(k)).value.link.Lower?
  }

  /** remove; `top`: this is layer 0.  A folded layer below makes the removal start again in this one. */
  function Remove(t: Tree, k: Rest, top: bool): (r: Removed)
    requires LayerOk(t)
    ensures r.Gone? ==> top
    decreases |k.slices|, if AtLower(t, k) then 1 else 0
  {
    match Reach(t, SlotFor(k))
    case None => Stay(t)
    case Some(e) =>
      match e.link
      case Lower(root) =>
        (match Remove(root, Next(k), false)
         case Stay(below) => Stay(PutLink(t, SlotFor(k), Lower(below)))
         case Fold(rest, ref) =>
           PutKeeps(t, SlotFor(k), Suffix(rest, ref), 0, SLICE_LIMIT);
           PutReach(t, SlotFor(k), Suffix(rest, ref), 0, SLICE_LIMIT, SlotFor(k));
           Remove(PutLink(t, SlotFor(k), Suffix(rest, ref)), k, top))
      case Suffix(rest, ref) => if IsSame(rest, Next(k)) then RemoveHere(t, e, top) else Stay(t)
      case Value(_, _) => RemoveHere(t, e, top)
  }

  function RemoveHere(t: Tree, e: Entry, top: bool): (r: Removed)
    requires LayerOk(t) && EntryOk(e) && !e.link.Lower?
    ensures r.Gone? ==> top
  {
    if t.Border? && |t.entries| == 1 && !top then Fold(Folded(e), e.link.ref)
    else
      DropKeeps(t, SlotOf(e), 0, SLICE_LIMIT);
      match DropEntry(t, SlotOf(e))
      case None => Gone
      case Some(left) => Stay(left)
  }

  // ---------------------------------------------------------------- keys that share a slot

  /** Two keys in the same slot differ only in what follows. */
  lemma SameSlot(k: Rest, j: Rest)
    requires SlotFor(k) == SlotFor(j)
    ensures HasNext(k) == HasNext(j)
    ensures if HasNext(k) then k == j <==> Next(k) == Next(j) else k == j
  {
    if HasNext(k) && Next(k) == Next(j) {
      assert k.slices == [k.slices[0]] + k.slices[1..] && j.slices == [j.slices[0]] + j.slices[1..];
    }
  }

  // ---------------------------------------------------------------- insertion refines a map

  lemma SingletonGet(k: Rest, ref: Ref, j: Rest)
    ensures LayerOk(Border([EntryFor(k, ref)]))
    ensures Get(Border([EntryFor(k, ref)]), j) == if j == k then Some(ref) else None
  {
    SingletonOk(k, ref);
    assert Reach(Border([EntryFor(k, ref)]), SlotFor(j))
          == if SlotFor(j) == SlotFor(k) then Some(EntryFor(k, ref)) else None;
    if SlotFor(j) == SlotFor(k) {
      SameSlot(k, j);
      if HasNext(k) { IsSameIsEqual(Next(k), Next(j)); }
    }
  }

  /** Insertion keeps every layer well-formed. */
  lemma {:induction false} InsertKeeps(t: Tree, k: Rest, ref: Ref)
    requires LayerOk(t)
    ensures LayerOk(Insert(t, k, ref))
    decreases |k.slices|
  {
    var slot := SlotFor(k);
    match Reach(t, slot)
    case None =>
      AddKeeps(t, EntryFor(k, ref), 0, SLICE_LIMIT);
      RootedOk(AddEntry(t, EntryFor(k, ref)), 0, SLICE_LIMIT);
    case Some(e) =>
      match e.link
      case Value(_, _) =>
      case Suffix(rest, held) =>
        if !IsSame(rest, Next(k)) {
          SingletonOk(rest, held);
          InsertKeeps(Border([EntryFor(rest, held)]), Next(k), ref);
          PutKeeps(t, slot, Lower(Insert(Border([EntryFor(rest, held)]), Next(k), ref)), 0, SLICE_LIMIT);
        }
      case Lower(root) =>
        InsertKeeps(root, Next(k), ref);
        PutKeeps(t, slot, Lower(Insert(root, Next(k), ref)), 0, SLICE_LIMIT);
  }

  /** A new lower layer in place of a link: lookups in that slot go on there. */
  lemma PutLowerGet(t: Tree, k: Rest, root: Tree, j: Rest)
    requires LayerOk(t) && LayerOk(root) && HasNext(k) && Reach(t, SlotFor(k)).Some?
    ensures LayerOk(PutLink(t, SlotFor(k), Lower(root)))
    ensures Get(PutLink(t, SlotFor(k), Lower(root)), j)
            == if SlotFor(j) == SlotFor(k) then Get(root, Next(j)) else Get(t, j)
  {
    PutKeeps(t, SlotFor(k), Lower(root), 0, SLICE_LIMIT);
    PutReach(t, SlotFor(k), Lower(root), 0, SLICE_LIMIT, SlotFor(j));
  }

  /** Insertion: `k` is found with its first record, and every other key answers as before. */
  lemma {:induction false} InsertGet(t: Tree, k: Rest, ref: Ref, j: Rest)
    requires LayerOk(t)
    ensures LayerOk(Insert(t, k, ref))
    ensures Get(Insert(t, k, ref), j) == if j == k && Get(t, k) == None then Some(ref) else Get(t, j)
    decreases |k.slices|
  {
    InsertKeeps(t, k, ref);
    if SlotFor(j) == SlotFor(k) { SameSlot(k, j); }
    match Reach(t, SlotFor(k))
    case None => InsertNewGet(t, k, ref, j);
    case Some(e) =>
      match e.link
      case Value(_, _) =>
      case Suffix(rest, held) =>
        IsSameIsEqual(rest, Next(k));
        if rest != Next(k) {
          var below := Border([EntryFor(rest, held)]);
          SingletonOk(rest, held);
          InsertKeeps(below, Next(k), ref);
          PutLowerGet(t, k, Insert(below, Next(k), ref), j);
          if SlotFor(j) == SlotFor(k) {
            InsertGet(below, Next(k), ref, Next(j));
            SingletonGet(rest, held, Next(k));
            SingletonGet(rest, held, Next(j));
            IsSameIsEqual(rest, Next(j));
          }
        }
      case Lower(root) =>
        InsertKeeps(root, Next(k), ref);
        PutLowerGet(t, k, Insert(root, Next(k), ref), j);
        if SlotFor(j) == SlotFor(k) {
          InsertGet(root, Next(k), ref, Next(j));
        }
  }

  lemma InsertNewGet(t: Tree, k: Rest, ref: Ref, j: Rest)
    requires LayerOk(t) && Reach(t, SlotFor(k)) == None
    ensures LayerOk(Rooted(AddEntry(t, EntryFor(k, ref))))
    ensures Get(Rooted(AddEntry(t, EntryFor(k, ref))), j) == if j == k then Some(ref) else Get(t, j)
  {
    var e := EntryFor(k, ref);
    AddKeeps(t, e, 0, SLICE_LIMIT);
    RootedOk(AddEntry(t, e), 0, SLICE_LIMIT);
    AddReach(t, e, 0, SLICE_LIMIT, SlotFor(j));
    if SlotFor(j) == SlotFor(k) {
      SameSlot(k, j);
      if HasNext(k) { IsSameIsEqual(Next(k), Next(j)); }
    }
  }

  // ---------------------------------------------------------------- removal refines map deletion

  /** Folding a one-key layer back into a suffix changes no lookup. */
  lemma FoldIsInvisible(t: Tree, k: Rest, rest: Rest, ref: Ref, j: Rest)
    requires LayerOk(t) && AtLower(t, k)
    requires var root := Reach(t, SlotFor(k)).value.link.root;
             SlotFor(j) == SlotFor(k) ==>
                 HasNext(j) && Get(root, Next(j)) == if Next(j) == rest then Some(ref) else None
    ensures LayerOk(PutLink(t, SlotFor(k), Suffix(rest, ref)))
    ensures Get(PutLink(t, SlotFor(k), Suffix(rest, ref)), j) == Get(t, j)
  {
    PutKeeps(t, SlotFor(k), Suffix(rest, ref), 0, SLICE_LIMIT);
    PutReach(t, SlotFor(k), Suffix(rest, ref), 0, SLICE_LIMIT, SlotFor(j));
    if SlotFor(j) == SlotFor(k) { IsSameIsEqual(rest, Next(j)); }
  }

  /** The outcome of removing `k`, seen by a lookup of `j`. */
  ghost predicate RemovedOk(t: Tree, k: Rest, r: Removed, j: Rest)
    requires LayerOk(t)
  {
    match r
    case Stay(root) => LayerOk(root) && Get(root, j) == if j == k then None else Get(t, j)
    case Fold(rest, ref) => rest == k && Get(t, j) == if j == k then Some(ref) else None
    case Gone => j != k ==> Get(t, j) == None
  }

  lemma OnlyEntry(t: Tree, e: Entry, slot: Slot)
    requires LayerOk(t) && t.Border? && |t.entries| == 1 && Reach(t, SlotOf(e)) == Some(e)
    ensures Reach(t, slot) == if slot == SlotOf(e) then Some(e) else None
  {
  }

  lemma RemoveHereOk(t: Tree, k: Rest, e: Entry, top: bool, j: Rest)
    requires LayerOk(t) && Reach(t, SlotFor(k)) == Some(e) && !e.link.Lower?
    requires e.link.Suffix? ==> e.link.rest == Next(k)
    ensures RemovedOk(t, k, RemoveHere(t, e, top), j)
  {
    if SlotFor(j) == SlotFor(k) {
      SameSlot(k, j);
      if HasNext(k) { IsSameIsEqual(Next(k), Next(j)); }
    }
    if t.Border? && |t.entries| == 1 && !top {
      OnlyEntry(t, e, SlotFor(j));
      assert Folded(e) == k;
    } else {
      DropKeeps(t, SlotOf(e), 0, SLICE_LIMIT);
      DropReach(t, SlotOf(e), 0, SLICE_LIMIT, SlotFor(j));
    }
  }

  /**
    Removal takes away exactly `k`: through one-key layers folded back into the layer above, with the
    removal starting again there, and emptied nodes unlinked with their siblings pulled up.
   */
  lemma {:induction false} RemoveOk(t: Tree, k: Rest, top: bool, j: Rest)
    requires LayerOk(t)
    ensures RemovedOk(t, k, Remove(t, k, top), j)
    decreases |k.slices|, if AtLower(t, k) then 2 else 0
  {
    if SlotFor(j) == SlotFor(k) { SameSlot(k, j); }
    match Reach(t, SlotFor(k))
    case None =>
    case Some(e) =>
      match e.link
      case Lower(root) => RemoveLowerOk(t, k, top, root, j);
      case Suffix(rest, ref) =>
        IsSameIsEqual(rest, Next(k));
        if rest == Next(k) { RemoveHereOk(t, k, e, top, j); }
      case Value(_, _) => RemoveHereOk(t, k, e, top, j);
  }

  lemma {:induction false} RemoveLowerOk(t: Tree, k: Rest, top: bool, root: Tree, j: Rest)
    requires LayerOk(t) && AtLower(t, k) && Reach(t, SlotFor(k)).value.link.root == root
    ensures RemovedOk(t, k, Remove(t, k, top), j)
    decreases |k.slices|, 1
  {
    if SlotFor(j) == SlotFor(k) { SameSlot(k, j); }
    var next := if SlotFor(j) == SlotFor(k) then Next(j) else Next(k);
    RemoveOk(root, Next(k), false, next);
    match Remove(root, Next(k), false)
    case Stay(below) => PutLowerGet(t, k, below, j);
    case Fold(rest, ref) =>
      var t' := PutLink(t, SlotFor(k), Suffix(rest, ref));
      FoldIsInvisible(t, k, rest, ref, j);
      PutReach(t, SlotFor(k), Suffix(rest, ref), 0, SLICE_LIMIT, SlotFor(k));
      FoldIsInvisible(t, k, rest, ref, j);
      RemoveOk(t', k, top, j);
  }

  // ---------------------------------------------------------------- what is reported

  datatype Status = Ok | AlreadyExists | NotFound
  datatype Reported<T> = Reported(status: Status, after: T)

  /** The status of a lower layer, handed on or replaced by success. */
  function Handed(pass: bool, below: Status): Status { if pass then below else Ok }

  /**
    masstree_insert with the status it returns.  The source does not hand on what a lower layer reports;
    `pass`: it does.
   */
  function InsertReporting(t: Tree, k: Rest, ref: Ref, pass: bool): Reported<Tree>
    requires LayerOk(t)
    decreases |k.slices|
  {
    match Reach(t, SlotFor(k))
    case None => Reported(Ok, Rooted(AddEntry(t, EntryFor(k, ref))))
    case Some(e) =>
      match e.link
      case Value(_, _) => Reported(AlreadyExists, t)
      case Suffix(rest, held) =>
        if IsSame(rest, Next(k)) then Reported(AlreadyExists, t)
        else
          SingletonOk(rest, held);
          var below := InsertReporting(Border([EntryFor(rest, held)]), Next(k), ref, pass);
          Reported(Handed(pass, below.status), PutLink(t, SlotFor(k), Lower(below.after)))
      case Lower(root) =>
        var below := InsertReporting(root, Next(k), ref, pass);
        Reported(Handed(pass, below.status), PutLink(t, SlotFor(k), Lower(below.after)))
  }

  /** remove with the status it returns. */
  function RemoveReporting(t: Tree, k: Rest, top: bool, pass: bool): (r: Reported<Removed>)
    requires LayerOk(t)
    ensures r.after.Gone? ==> top
    decreases |k.slices|, if AtLower(t, k) then 1 else 0
  {
    match Reach(t, SlotFor(k))
    case None => Reported(NotFound, Stay(t))
    case Some(e) =>
      match e.link
      case Lower(root) =>
        var below := RemoveReporting(root, Next(k), false, pass);
        (match below.after
         case Stay(left) => Reported(Handed(pass, below.status), Stay(PutLink(t, SlotFor(k), Lower(left))))
         case Fold(rest, ref) =>
           PutKeeps(t, SlotFor(k), Suffix(rest, ref), 0, SLICE_LIMIT);
           PutReach(t, SlotFor(k), Suffix(rest, ref), 0, SLICE_LIMIT, SlotFor(k));
           RemoveReporting(PutLink(t, SlotFor(k), Suffix(rest, ref)), k, top, pass))
      case Suffix(rest, ref) => if IsSame(rest, Next(k)) then Reported(Ok, RemoveHere(t, e, top))
          else Reported(NotFound, Stay(t))
      case Value(_, _) => Reported(Ok, RemoveHere(t, e, top))
  }

  /** The true status of an insertion and of a removal. */
  function InsertTruth(t: Tree, k: Rest): Status
    requires LayerOk(t)
  {
    if Get(t, k) == None then Ok else AlreadyExists
  }

  function RemoveTruth(t: Tree, k: Rest): Status
    requires LayerOk(t)
  {
    if Get(t, k) == None then NotFound else Ok
  }

  /**
    Handed on, the status of an insertion is true at every depth; as written it is the truth where layer 0
    decides, and Ok, whatever happened, wherever a lower layer does.
   */
  lemma {:induction false} InsertReports(t: Tree, k: Rest, ref: Ref, pass: bool)
    requires LayerOk(t)
    ensures InsertReporting(t, k, ref, pass).after == Insert(t, k, ref)
    ensures InsertReporting(t, k, ref, pass).status == if pass || !AtLower(t, k) then InsertTruth(t, k) else Ok
    decreases |k.slices|
  {
    match Reach(t, SlotFor(k))
    case None => assert Get(t, k) == None;
    case Some(e) =>
      match e.link
      case Value(_, held) => assert Get(t, k) == Some(held);
      case Suffix(rest, held) =>
        assert Get(t, k) == if IsSame(rest, Next(k)) then Some(held) else None;
        if !IsSame(rest, Next(k)) {
          SingletonGet(rest, held, Next(k));
          IsSameIsEqual(rest, Next(k));
          InsertReports(Border([EntryFor(rest, held)]), Next(k), ref, pass);
        }
      case Lower(root) =>
        assert Get(t, k) == Get(root, Next(k));
        InsertReports(root, Next(k), ref, pass);
  }

  /** The same for a removal. */
  lemma {:induction false} RemoveReports(t: Tree, k: Rest, top: bool, pass: bool)
    requires LayerOk(t)
    ensures RemoveReporting(t, k, top, pass).after == Remove(t, k, top)
    ensures RemoveReporting(t, k, top, pass).status == if pass || !AtLower(t, k) then RemoveTruth(t, k) else Ok
    decreases |k.slices|, if AtLower(t, k) then 1 else 0
  {
    match Reach(t, SlotFor(k))
    case None => assert Get(t, k) == None;
    case Some(e) =>
      match e.link
      case Value(_, ref) => assert Get(t, k) == Some(ref);
      case Suffix(rest, ref) => assert Get(t, k) == if IsSame(rest, Next(k)) then Some(ref) else None;
      case Lower(root) =>
        assert Get(t, k) == Get(root, Next(k));
        RemoveReports(root, Next(k), false, pass);
        match Remove(root, Next(k), false)
        case Stay(_) =>
        case Fold(rest, ref) =>
          PutKeeps(t, SlotFor(k), Suffix(rest, ref), 0, SLICE_LIMIT);
          PutReach(t, SlotFor(k), Suffix(rest, ref), 0, SLICE_LIMIT, SlotFor(k));
          RemoveOk(root, Next(k), false, Next(k));
          IsSameIsEqual(rest, Next(k));
          assert Get(PutLink(t, SlotFor(k), Suffix(rest, ref)), k) == Some(ref);
          RemoveReports(PutLink(t, SlotFor(k), Suffix(rest, ref)), k, top, pass);
  }
}
