/**
  The Masstree interface (server/enclave/masstree/masstree.cpp) as a map from non-empty byte strings,
  over any sequence of operations, and where the source departs from it.
 */
module MasstreeMap {
  import opened Base
  import opened Keys
  import opened Layer
  import opened SplitPoint
  import opened LayerOps
  import opened LayerRemove
  import opened Masstree

  type Str = s: seq<Byte> | s != [] witness [0]

  /** The root pointer: null while the tree is empty. */
  type Root = Option<Tree>

  predicate RootOk(root: Root) { root.Some? ==> LayerOk(root.value) }

  function Lookup(root: Root, s: Str): Option<Ref>
    requires RootOk(root)
  {
    match root
    case None => None
    case Some(t) => Get(t, ToKey(s))
  }

  datatype Op = Put(key: Str, ref: Ref) | Del(key: Str)

  /** insert_value and remove_value; start_new_tree makes the first node. */
  function Apply(root: Root, op: Op): Root
    requires RootOk(root)
  {
    match root
    case None => if op.Put? then Some(Border([EntryFor(ToKey(op.key), op.ref)])) else None
    case Some(t) =>
      match op
      case Put(key, ref) => Some(Insert(t, ToKey(key), ref))
      case Del(key) =>
        match Remove(t, ToKey(key), true)
        case Stay(t') => Some(t')
        case Fold(_, _) => None
        case Gone => None
  }

  /** At layer 0 nothing is folded. */
  lemma TopNeverFolds(t: Tree, k: Rest)
    requires LayerOk(t)
    ensures !Remove(t, k, true).Fold?
    decreases |k.slices|, if AtLower(t, k) then 1 else 0
  {
    var e := Reach(t, SlotFor(k));
    if e.Some? && e.value.link.Lower? {
      var root := e.value.link.root;
      match Remove(root, Next(k), false)
      case Stay(_) =>
      case Fold(rest, ref) =>
        PutKeeps(t, SlotFor(k), Suffix(rest, ref), 0, SLICE_LIMIT);
        PutReach(t, SlotFor(k), Suffix(rest, ref), 0, SLICE_LIMIT, SlotFor(k));
        TopNeverFolds(PutLink(t, SlotFor(k), Suffix(rest, ref)), k);
    }
  }

  /** The reference: a plain map.  The first insertion of a key stands. */
  function ApplyMap(m: map<Str, Ref>, op: Op): map<Str, Ref> {
    match op
    case Put(key, ref) => if key in m then m else m[key := ref]
    case Del(key) => m - {key}
  }

  function LookupMap(m: map<Str, Ref>, s: Str): Option<Ref> { if s in m then Some(m[s]) else None }

  lemma ApplyStep(root: Root, op: Op, s: Str)
    requires RootOk(root)
    ensures RootOk(Apply(root, op))
    ensures Lookup(Apply(root, op), s)
            == match op
               case Put(key, ref) => if s == key && Lookup(root, key) == None then Some(ref) else Lookup(root, s)
               case Del(key) => if s == key then None else Lookup(root, s)
  {
    if s != op.key && ToKey(s) == ToKey(op.key) { ToKeyInjective(s, op.key); }
    match root
    case None =>
      if op.Put? { SingletonGet(ToKey(op.key), op.ref, ToKey(s)); }
    case Some(t) =>
      match op
      case Put(key, ref) => InsertGet(t, ToKey(key), ref, ToKey(s));
      case Del(key) =>
        TopNeverFolds(t, ToKey(key));
        RemoveOk(t, ToKey(key), true, ToKey(s));
  }

  /** The root pointer and the reference map after a sequence of operations on an empty tree. */
  function Run(ops: seq<Op>): (root: Root)
    ensures RootOk(root)
  {
    if ops == [] then None
    else
      var last := ops[|ops| - 1];
      ApplyStep(Run(ops[..|ops| - 1]), last, last.key);
      Apply(Run(ops[..|ops| - 1]), last)
  }

  function RunMap(ops: seq<Op>): map<Str, Ref> {
    if ops == [] then map[] else ApplyMap(RunMap(ops[..|ops| - 1]), ops[|ops| - 1])
  }

  /**
    After any sequence of insertions and removals of keys of any length, a lookup of any key answers
    exactly what a plain map from byte strings answers.
   */
  lemma {:induction false} RefinesMap(ops: seq<Op>, s: Str)
    ensures Lookup(Run(ops), s) == LookupMap(RunMap(ops), s)
  {
    if ops != [] {
      var before, last := ops[..|ops| - 1], ops[|ops| - 1];
      RefinesMap(before, s);
      RefinesMap(before, last.key);
      ApplyStep(Run(before), last, s);
    }
  }

  // ---------------------------------------------------------------- status codes

  /** insert_value and remove_value with the status they return; `pass`: lower layers' statuses are handed on. */
  function Reports(root: Root, op: Op, pass: bool): Status
    requires RootOk(root)
  {
    match root
    case None => if op.Put? then Ok else NotFound
    case Some(t) =>
      match op
      case Put(key, ref) => InsertReporting(t, ToKey(key), ref, pass).status
      case Del(key) => RemoveReporting(t, ToKey(key), true, pass).status
  }

  /** What a plain map would report. */
  function MapStatus(m: map<Str, Ref>, op: Op): Status {
    match op
    case Put(key, _) => if key in m then AlreadyExists else Ok
    case Del(key) => if key in m then Ok else NotFound
  }

  /** Layer 0 hands the key on to a lower layer. */
  predicate GoesBelow(root: Root, s: Str)
    requires RootOk(root)
  {
    root.Some? && AtLower(root.value, ToKey(s))
  }

  /**
    After any sequence of operations the next one reports what a plain map would if lower layers' statuses are
    handed on or layer 0 decides, and success otherwise: the truth if and only if it is one of these.
   */
  lemma StatusTruth(ops: seq<Op>, op: Op, pass: bool)
    ensures Reports(Run(ops), op, pass)
          == if pass || !GoesBelow(Run(ops), op.key) then MapStatus(RunMap(ops), op) else Ok
    ensures Reports(Run(ops), op, pass) == MapStatus(RunMap(ops), op)
            <==> pass || !GoesBelow(Run(ops), op.key) || MapStatus(RunMap(ops), op) == Ok
  {
    RefinesMap(ops, op.key);
    if Run(ops).Some? {
      match op
      case Put(key, ref) => InsertReports(Run(ops).value, ToKey(key), ref, pass);
      case Del(key) => RemoveReports(Run(ops).value, ToKey(key), true, pass);
    }
  }

  // ---------------------------------------------------------------- the border split of long keys

  /** The new entry as split_keys_among stores it: for a key that goes on, the slice size instead of the slice. */
  function AsWritten(e: Entry): Entry { if e.link.Suffix? then e.(slice := 8) else e }

  function SplitAsWritten(es: seq<Entry>, e: Entry): seq<Entry>
  {
    InsertAt(es, InsertionIndex(es, e.slice), AsWritten(e))
  }

  predicate Stored(es: seq<Entry>, slot: Slot) { exists i :: 0 <= i < |es| && SlotOf(es[i]) == slot }

  /** The key survives a split of its border node as written exactly if it ends there or its slice happens to be 8. */
  lemma SplitLosesLongKeys(es: seq<Entry>, e: Entry)
    requires FullNode(es) && At(es, SlotOf(e)) == None && !e.link.Lower?
    ensures Stored(SplitAsWritten(es, e), SlotOf(e)) <==> e.link.Value? || e.slice == 8
    ensures SplitAsWritten(es, e) == Placed(es, e) <==> e.link.Value? || e.slice == 8
  {
    var p := InsertionIndex(es, e.slice);
    var all := SplitAsWritten(es, e);
    assert all[p] == AsWritten(e) && Placed(es, e)[p] == e;
    assert AsWritten(e) == e ==> SlotOf(all[p]) == SlotOf(e);
    var i := IndexOf(es, SlotOf(e));
    assert forall j :: 0 <= j < |all| && j != p ==> all[j] == es[if j < p then j else j - 1];
  }

  /** Where its neighbours are in order the stored slice need not be: the right half may begin below the left. */
  lemma SplitBreaksOrder()
    ensures exists es: seq<Entry>, e: Entry ::
              FullNode(es) && At(es, SlotOf(e)) == None && !Sorted(SplitAsWritten(es, e))
  {
    var es: seq<Entry> := seq(MAX_KEYS, i requires 0 <= i < MAX_KEYS => Entry(100 + i, Value(1, i)));
    var e := Entry(200, Suffix(Key([0], 1), 99));
    AtNone(es, SlotOf(e));
    assert InsertionIndex(es, 200) == MAX_KEYS;
    assert SplitAsWritten(es, e)[0].slice == 100 && SplitAsWritten(es, e)[MAX_KEYS].slice == 8;
  }
}
