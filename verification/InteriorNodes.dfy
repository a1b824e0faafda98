/**
  Interior nodes as the source keeps them: up to fifteen keys and sixteen children in fixed arrays,
  shifted in place (server/enclave/masstree/include/masstree_node.h, masstree_insert.cpp,
  masstree_remove.cpp), against the functions the tree model uses.
 */
module InteriorNodes {
  import opened Keys
  import opened Layer
  import L = Layer
  import opened LayerOps

  class InteriorNode {
    var nKeys: nat
    const keySlice: array<Slice>
    const child: array<Tree>

    ghost predicate Valid()
      reads this
    {
      keySlice.Length == MAX_KEYS && child.Length == ORDER && nKeys <= MAX_KEYS
    }

    ghost function Keys(): (s: seq<Slice>)
      reads this, keySlice
      requires Valid()
      ensures |s| == nKeys
    {
      keySlice[..nKeys]
    }

    ghost function Kids(): (s: seq<Tree>)
      reads this, child
      requires Valid()
      ensures |s| == nKeys + 1
    {
      child[..nKeys + 1]
    }

    constructor Blank()
      ensures Valid() && fresh(keySlice) && fresh(child) && nKeys == 0
    {
      nKeys := 0;
      keySlice := new Slice[MAX_KEYS](_ => 0);
      child := new Tree[ORDER](_ => Border([]));
    }

    /** create_root_with_children. */
    constructor Root(left: Tree, sep: Slice, right: Tree)
      ensures Valid() && fresh(keySlice) && fresh(child)
      ensures Interior(Keys(), Kids()) == Rooted(Two(left, sep, right))
    {
      nKeys := 1;
      keySlice := new Slice[MAX_KEYS](_ => 0);
      child := new Tree[ORDER](_ => Border([]));
      new;
      keySlice[0] := sep;
      child[0], child[1] := left, right;
      assert keySlice[..1] == [sep] && child[..2] == [left, right];
    }

    /** findChild. */
    method FindChild(slice: Slice) returns (c: nat)
      requires Valid()
      ensures c == L.FindChild(Keys(), slice)
    {
      c := 0;
      while c < nKeys
        invariant c <= L.FindChild(Keys(), slice) <= nKeys
      {
        assert Keys()[c] == keySlice[c];
        if slice < keySlice[c] { return c; }
        c := c + 1;
      }
    }

    /** insert_into_parent: everything after position `c` moves one to the right. */
    method InsertIntoParent(c: nat, sep: Slice, right: Tree)
      requires Valid() && nKeys < MAX_KEYS && c <= nKeys
      modifies this, keySlice, child
      ensures Valid()
      ensures Keys() == InsertAt(old(Keys()), c, sep) && Kids() == InsertAt(old(Kids()), c + 1, right)
    {
      ghost var keys, kids := Keys(), Kids();
      var i := nKeys;
      while i > c
        invariant c <= i <= nKeys == old(nKeys)
        invariant forall j {:trigger keySlice[j]} :: 0 <= j <= nKeys && j != i ==>
              keySlice[j] == if j < i then keys[j] else keys[j - 1]
        invariant forall j {:trigger child[j]} :: 0 <= j <= nKeys + 1 && j != i + 1 ==>
              child[j] == if j <= i then kids[j] else kids[j - 1]
      {
        child[i + 1] := child[i];
        keySlice[i] := keySlice[i - 1];
        i := i - 1;
      }
      child[c + 1] := right;
      keySlice[c] := sep;
      nKeys := nKeys + 1;
      assert forall j :: 0 <= j < nKeys ==> Keys()[j] == keySlice[j];
      assert forall j :: 0 <= j <= nKeys ==> Kids()[j] == child[j];
    }

    /** delete_borderNode_in_remove with two keys or more: both arrays shift left over their whole length. */
    method RemoveChild(c: nat)
      requires Valid() && nKeys >= 2 && c <= nKeys
      modifies this, keySlice, child
      ensures Valid() && Interior(Keys(), Kids()) == DropChild(old(Keys()), old(Kids()), c)
    {
      ghost var keys, kids := keySlice[..], child[..];
      var startKey, startChild := if c == 0 then 0 else c - 1, c;
      for i := startKey to MAX_KEYS - 1
        invariant nKeys == old(nKeys) && child[..] == kids
        invariant forall j {:trigger keySlice[j]} :: 0 <= j < MAX_KEYS ==>
              keySlice[j] == keys[if startKey <= j < i then j + 1 else j]
      {
        keySlice[i] := keySlice[i + 1];
      }
      ghost var shifted := keySlice[..];
      for i := startChild to ORDER - 1
        invariant nKeys == old(nKeys) && keySlice[..] == shifted
        invariant forall j {:trigger child[j]} :: 0 <= j < ORDER ==>
              child[j] == kids[if startChild <= j < i then j + 1 else j]
      {
        child[i] := child[i + 1];
      }
      nKeys := nKeys - 1;
      assert Keys() == RemoveAt(old(Keys()), startKey);
      assert Kids() == RemoveAt(old(Kids()), c);
    }

    /** The temporary arrays of split_keys_among: keys and children with the new ones in their places. */
    method Spread(c: nat, sep: Slice, right: Tree) returns (tempKeys: array<Slice>, tempChild: array<Tree>)
      requires Valid() && nKeys == MAX_KEYS && c <= nKeys
      ensures fresh(tempKeys) && fresh(tempChild) && tempKeys.Length == ORDER && tempChild.Length == ORDER + 1
      ensures tempKeys[..] == InsertAt(Keys(), c, sep) && tempChild[..] == InsertAt(Kids(), c + 1, right)
    {
      tempKeys := new Slice[ORDER](_ => 0);
      tempChild := new Tree[ORDER + 1](_ => Border([]));
      var i, j := 0, 0;
      while i < nKeys + 1
        invariant i <= nKeys + 1 && j == if i <= c + 1 then i else i + 1
        invariant forall m {:trigger tempChild[m]} :: 0 <= m < j && m != c + 1 ==>
              tempChild[m] == child[if m < c + 1 then m else m - 1]
      {
        if j == c + 1 { j := j + 1; }
        tempChild[j] := child[i];
        i, j := i + 1, j + 1;
      }
      i, j := 0, 0;
      while i < nKeys
        invariant i <= nKeys && j == if i <= c then i else i + 1
        invariant forall m {:trigger tempChild[m]} :: 0 <= m < ORDER + 1 && m != c + 1 ==>
              tempChild[m] == child[if m < c + 1 then m else m - 1]
        invariant forall m {:trigger tempKeys[m]} :: 0 <= m < j && m != c ==>
              tempKeys[m] == keySlice[if m < c then m else m - 1]
      {
        if j == c { j := j + 1; }
        tempKeys[j] := keySlice[i];
        i, j := i + 1, j + 1;
      }
      tempChild[c + 1] := right;
      tempKeys[c] := sep;
    }

    /** Keys `a..b` and the children around them. */
    method FillFrom(tempKeys: array<Slice>, tempChild: array<Tree>, a: nat, b: nat)
      requires Valid() && tempKeys != keySlice && tempChild != child
      requires a <= b < tempChild.Length && b <= tempKeys.Length && b - a <= MAX_KEYS
      modifies this, keySlice, child
      ensures Valid() && Keys() == old(tempKeys[a..b]) && Kids() == old(tempChild[a..b + 1])
    {
      nKeys := 0;
      var i := a;
      while i < b
        invariant a <= i <= b && nKeys == i - a && Valid()
        invariant tempKeys[..] == old(tempKeys[..]) && tempChild[..] == old(tempChild[..])
        invariant forall m :: 0 <= m < nKeys ==> keySlice[m] == tempKeys[a + m] && child[m] == tempChild[a + m]
      {
        child[i - a] := tempChild[i];
        keySlice[i - a] := tempKeys[i];
        nKeys := nKeys + 1;
        i := i + 1;
      }
      child[i - a] := tempChild[i];
    }

    /** split_keys_among: seven keys stay, the eighth goes up, and the other eight move to the new right node. */
    method SplitKeysAmong(c: nat, sep: Slice, right: Tree) returns (parent1: InteriorNode, kPrime: Slice)
      requires Valid() && nKeys == MAX_KEYS && c <= nKeys
      modifies this, keySlice, child
      ensures fresh(parent1) && fresh(parent1.keySlice) && fresh(parent1.child) && Valid() && parent1.Valid()
      ensures Two(Interior(Keys(), Kids()), kPrime, Interior(parent1.Keys(), parent1.Kids()))
              == AddChild(old(Keys()), old(Kids()), c, sep, right)
    {
      var tempKeys, tempChild := Spread(c, sep, right);
      parent1 := new InteriorNode.Blank();
      parent1.FillFrom(tempKeys, tempChild, HALF, ORDER);
      FillFrom(tempKeys, tempChild, 0, HALF - 1);
      kPrime := tempKeys[HALF - 1];
      ghost var keys, kids := InsertAt(old(Keys()), c, sep), InsertAt(old(Kids()), c + 1, right);
      assert tempKeys[HALF..ORDER] == keys[HALF..] && tempChild[HALF..ORDER + 1] == kids[HALF..];
      assert tempKeys[0..HALF - 1] == keys[..HALF - 1] && tempChild[0..HALF] == kids[..HALF];
    }
  }
}
