/**
  Where a full border node is split (server/enclave/masstree/masstree_insert.cpp, create_slice_table,
  split_point and the border split_keys_among).
 */
module SplitPoint {
  import opened Keys
  import opened Layer

  /** The distinct slices of a node with the index of their first occurrence. */
  datatype First = First(slice: Slice, index: nat)

  predicate Listed(table: seq<First>, slice: Slice) {
    exists i :: 0 <= i < |table| && table[i].slice == slice
  }

  /** create_slice_table over the first `n` entries. */
  function Table(es: seq<Entry>, n: nat): seq<First>
    requires n <= |es|
  {
    if n == 0 then []
    else
      var t := Table(es, n - 1);
      if Listed(t, es[n - 1].slice) then t else t + [First(es[n - 1].slice, n - 1)]
  }

  function MinSlice(table: seq<First>): Slice
    requires table != []
  {
    if |table| == 1 then table[0].slice
    else
      var m := MinSlice(table[1..]);
      if m < table[0].slice then m else table[0].slice
  }

  function MaxSlice(table: seq<First>): Slice
    requires table != []
  {
    if |table| == 1 then table[0].slice
    else
      var m := MaxSlice(table[1..]);
      if table[0].slice < m then m else table[0].slice
  }

  function FirstEqual(table: seq<First>, slice: Slice): (i: nat)
    requires Listed(table, slice)
    ensures i < |table| && table[i].slice == slice
    ensures forall j :: 0 <= j < i ==> table[j].slice != slice
  {
    if table[0].slice == slice then 0
    else
      assert Listed(table[1..], slice) by {
        var k :| 0 <= k < |table| && table[k].slice == slice;
        assert table[1..][k - 1] == table[k];
      }
      1 + FirstEqual(table[1..], slice)
  }

  function FirstAbove(table: seq<First>, slice: Slice): (i: nat)
    requires table != [] && slice < MaxSlice(table)
    ensures i < |table| && slice < table[i].slice
    ensures forall j :: 0 <= j < i ==> table[j].slice <= slice
  {
    if slice < table[0].slice then 0 else 1 + FirstAbove(table[1..], slice)
  }

  /** split_point. */
  function Point(slice: Slice, table: seq<First>): nat
    requires table != [] && (slice == MinSlice(table) ==> |table| >= 2)
  {
    var lo, hi := MinSlice(table), MaxSlice(table);
    if slice < lo then 1
    else if slice == lo then table[1].index + 1
    else if slice < hi then
      if Listed(table, slice) then table[FirstEqual(table, slice)].index
      else table[FirstAbove(table, slice)].index + 1
    else if slice == hi then MaxListed(table); table[FirstEqual(table, slice)].index
    else MAX_KEYS
  }

  lemma MaxListed(table: seq<First>)
    requires table != []
    ensures Listed(table, MaxSlice(table))
  {
    if |table| == 1 || MaxSlice(table) == table[0].slice {
      assert table[0].slice == MaxSlice(table);
    } else {
      MaxListed(table[1..]);
      var i :| 0 <= i < |table[1..]| && table[1..][i].slice == MaxSlice(table[1..]);
      assert table[i + 1].slice == MaxSlice(table);
    }
  }

  // ---------------------------------------------------------------- the table of a sorted node

  /** The index is where the slice begins. */
  ghost predicate Begins(es: seq<Entry>, n: nat, f: First)
    requires n <= |es|
  {
    f.index < n && es[f.index].slice == f.slice && forall k :: 0 <= k < f.index ==> es[k].slice < f.slice
  }

  /** Strictly ascending, and each index is where its slice begins. */
  ghost predicate Proper(es: seq<Entry>, n: nat, table: seq<First>)
    requires n <= |es|
  {
    && (forall i, j :: 0 <= i < j < |table| ==> table[i].slice < table[j].slice)
    && (forall i :: 0 <= i < |table| ==> Begins(es, n, table[i]))
    && (forall k :: 0 <= k < n ==> Listed(table, es[k].slice))
  }

  /** An entry whose slice is listed already. */
  lemma TableKept(es: seq<Entry>, n: nat, t: seq<First>)
    requires n < |es| && Proper(es, n, t) && Listed(t, es[n].slice)
    ensures Proper(es, n + 1, t)
  {
  }

  /** An entry with a new slice, which is above all the listed ones. */
  lemma TableGrown(es: seq<Entry>, n: nat, t: seq<First>)
    requires Sorted(es) && n < |es| && Proper(es, n, t) && !Listed(t, es[n].slice)
    ensures Proper(es, n + 1, t + [First(es[n].slice, n)])
  {
    var x := es[n].slice;
    var t' := t + [First(x, n)];
    forall k | 0 <= k < n ensures es[k].slice < x && Listed(t', es[k].slice) {
      var i :| 0 <= i < |t| && t[i].slice == es[k].slice;
      assert t'[i].slice == es[k].slice;
    }
    assert t'[|t|].slice == x;
    forall i | 0 <= i < |t'| ensures Begins(es, n + 1, t'[i]) && (i < |t| ==> t'[i].slice < x) {
      if i < |t| { assert t'[i] == t[i] && Begins(es, n, t[i]); }
    }
  }

  lemma {:induction false} TableHead(es: seq<Entry>, n: nat)
    requires 0 < n <= |es|
    ensures Table(es, n) != [] && Table(es, n)[0] == First(es[0].slice, 0)
  {
    if n > 1 {
      TableHead(es, n - 1);
    } else {
      assert Table(es, 0) == [];
    }
  }

  lemma TableEmpty(es: seq<Entry>)
    ensures Proper(es, 0, Table(es, 0))
  {
  }

  lemma TableNext(es: seq<Entry>, n: nat)
    requires Sorted(es) && n < |es| && Proper(es, n, Table(es, n))
    ensures Proper(es, n + 1, Table(es, n + 1))
  {
    hide Proper, Sorted, Listed;
    if Listed(Table(es, n), es[n].slice) {
      TableKept(es, n, Table(es, n));
    } else {
      TableGrown(es, n, Table(es, n));
    }
  }

  lemma {:induction false} TableProper(es: seq<Entry>, n: nat)
    requires Sorted(es) && n <= |es|
    ensures Proper(es, n, Table(es, n))
  {
    hide Proper, Sorted, Listed, Table;
    if n == 0 {
      TableEmpty(es);
    } else {
      TableProper(es, n - 1);
      TableNext(es, n - 1);
    }
  }

  lemma {:induction false} Extremes(table: seq<First>)
    requires table != [] && (forall i, j :: 0 <= i < j < |table| ==> table[i].slice < table[j].slice)
    ensures MinSlice(table) == table[0].slice && MaxSlice(table) == table[|table| - 1].slice
  {
    if |table| > 1 {
      Extremes(table[1..]);
    }
  }

  /** A node as the border split meets it. */
  ghost predicate FullNode(es: seq<Entry>) {
    |es| == MAX_KEYS && Sorted(es) && Apart(es) && forall i :: 0 <= i < |es| ==> EntryOk(es[i])
  }

  /** A full node holds at least two different slices, so `table[1]` is in bounds. */
  lemma TwoSlices(es: seq<Entry>)
    requires FullNode(es)
    ensures |Table(es, MAX_KEYS)| >= 2 && MinSlice(Table(es, MAX_KEYS)) == es[0].slice
  {
    var t := Table(es, MAX_KEYS);
    TableProper(es, MAX_KEYS);
    TableHead(es, MAX_KEYS);
    Extremes(t);
    if es[0].slice == es[14].slice {
      AtMostNine(es, 0, 14);
    }
    var i :| 0 <= i < |t| && t[i].slice == es[14].slice;
  }

  /** The split point of a node with a proper table, case by case. */
  ghost predicate Separates(es: seq<Entry>, e: Entry, n: nat) {
    1 <= n <= |es| && Placed(es, e)[n - 1].slice < Placed(es, e)[n].slice
  }

  lemma AtEnds(es: seq<Entry>, e: Entry)
    requires FullNode(es)
    ensures e.slice < es[0].slice ==> Separates(es, e, 1)
    ensures e.slice > es[14].slice ==> Separates(es, e, MAX_KEYS)
  {
  }

  lemma AfterLowest(es: seq<Entry>, t: seq<First>, e: Entry)
    requires FullNode(es) && Proper(es, |es|, t) && |t| >= 2 && t[0] == First(e.slice, 0)
    ensures Separates(es, e, t[1].index + 1)
  {
    BeginsAt(es, t, 1);
    assert InsertionIndex(es, e.slice) == 0;
  }

  /** The new entry starts the right half when its slice is there already, and ends the left half when it is not. */
  lemma AtSlice(es: seq<Entry>, t: seq<First>, e: Entry, i: nat)
    requires FullNode(es) && Proper(es, |es|, t) && 0 < i < |t| && t[i - 1].slice < e.slice <= t[i].slice
    ensures InsertionIndex(es, e.slice) == t[i].index
    ensures if e.slice == t[i].slice then Separates(es, e, t[i].index) else Separates(es, e, t[i].index + 1)
  {
    BeginsAt(es, t, i);
  }

  lemma TableEnds(es: seq<Entry>, t: seq<First>)
    requires Sorted(es) && es != [] && Proper(es, |es|, t) && t != []
    ensures MinSlice(t) == t[0].slice && MaxSlice(t) == t[|t| - 1].slice == es[|es| - 1].slice
  {
    Extremes(t);
    LastListed(es, t);
  }

  lemma SeparatesBetween(es: seq<Entry>, t: seq<First>, e: Entry)
    requires FullNode(es) && Proper(es, |es|, t) && |t| >= 2 && t[0] == First(es[0].slice, 0)
    requires t[0].slice < e.slice <= t[|t| - 1].slice
    ensures Separates(es, e, Point(e.slice, t))
  {
    TableEnds(es, t);
    MaxListed(t);
    var i := if Listed(t, e.slice) then FirstEqual(t, e.slice) else FirstAbove(t, e.slice);
    assert i > 0 && t[i - 1].slice != e.slice;
    AtSlice(es, t, e, i);
  }

  /** The split point lands where the slice grows, with entries on both sides. */
  lemma PointSeparates(es: seq<Entry>, e: Entry)
    requires FullNode(es)
    ensures |Table(es, MAX_KEYS)| >= 2
    ensures Separates(es, e, Point(e.slice, Table(es, MAX_KEYS)))
  {
    hide Separates, Proper;
    var t, x := Table(es, MAX_KEYS), e.slice;
    TwoSlices(es);
    TableProper(es, MAX_KEYS);
    TableHead(es, MAX_KEYS);
    TableEnds(es, t);
    MaxListed(t);
    if x < t[0].slice || x > t[|t| - 1].slice {
      AtEnds(es, e);
    } else if x == t[0].slice {
      AfterLowest(es, t, e);
    } else {
      SeparatesBetween(es, t, e);
    }
  }

  /** The new entry goes right when its slice is the largest so far or is there already and not the smallest. */
  predicate GoesRight(es: seq<Entry>, slice: Slice)
    requires es != []
  {
    es[|es| - 1].slice < slice || (es[0].slice < slice && exists i :: 0 <= i < |es| && es[i].slice == slice)
  }

  /**
    A split after `n` entries with the new entry on its side: in front of the right half, or with the left
    half's last.
   */
  ghost predicate Sided(es: seq<Entry>, e: Entry, n: nat) {
    && es != [] && 1 <= n < |Placed(es, e)|
    && (if GoesRight(es, e.slice) then InsertionIndex(es, e.slice) == n
        else InsertionIndex(es, e.slice) < n && Placed(es, e)[n - 1].slice == e.slice)
  }

  lemma SideAtEnds(es: seq<Entry>, e: Entry)
    requires FullNode(es)
    ensures e.slice < es[0].slice ==> Sided(es, e, 1)
    ensures e.slice > es[14].slice ==> Sided(es, e, MAX_KEYS)
  {
  }

  lemma SideAfterLowest(es: seq<Entry>, t: seq<First>, e: Entry)
    requires FullNode(es) && Proper(es, |es|, t) && |t| >= 2 && t[0] == First(e.slice, 0)
    ensures Sided(es, e, t[1].index + 1)
  {
    BeginsAt(es, t, 1);
    var n := t[1].index;
    assert InsertionIndex(es, e.slice) == 0 && Placed(es, e)[n] == es[n - 1];
    assert es[0].slice == e.slice <= es[n - 1].slice <= t[0].slice;
  }

  lemma SideAtSlice(es: seq<Entry>, t: seq<First>, e: Entry, i: nat)
    requires FullNode(es) && Proper(es, |es|, t) && 0 < i < |t| && t[i - 1].slice < e.slice <= t[i].slice
    requires t[0].slice == es[0].slice && t[|t| - 1].slice == es[14].slice
          && (Listed(t, e.slice) <==> e.slice == t[i].slice)
    ensures Sided(es, e, if e.slice == t[i].slice then t[i].index else t[i].index + 1)
  {
    AtSlice(es, t, e, i);
    ListedIff(es, t, e.slice);
    assert t[0].slice <= t[i - 1].slice && t[i].slice <= t[|t| - 1].slice;
    assert Placed(es, e)[t[i].index] == e;
  }

  /**
    The side of the new entry: in front of the right half, or in the left half, which then ends with its slice.
    As the slice grows at the split point, this fixes the point.
   */
  lemma PointSide(es: seq<Entry>, e: Entry)
    requires FullNode(es)
    ensures |Table(es, MAX_KEYS)| >= 2
    ensures Sided(es, e, Point(e.slice, Table(es, MAX_KEYS)))
  {
    hide Sided, Proper;
    var t, x := Table(es, MAX_KEYS), e.slice;
    TwoSlices(es);
    TableProper(es, MAX_KEYS);
    TableHead(es, MAX_KEYS);
    TableEnds(es, t);
    MaxListed(t);
    if x < t[0].slice || x > t[|t| - 1].slice {
      SideAtEnds(es, e);
    } else if x == t[0].slice {
      SideAfterLowest(es, t, e);
    } else {
      SideBetween(es, t, e);
    }
  }

  lemma SideBetween(es: seq<Entry>, t: seq<First>, e: Entry)
    requires FullNode(es) && Proper(es, |es|, t) && |t| >= 2 && t[0] == First(es[0].slice, 0)
    requires t[0].slice < e.slice <= t[|t| - 1].slice
    ensures Sided(es, e, Point(e.slice, t))
  {
    TableEnds(es, t);
    MaxListed(t);
    var i := if Listed(t, e.slice) then FirstEqual(t, e.slice) else FirstAbove(t, e.slice);
    assert i > 0 && t[i - 1].slice != e.slice;
    SideAtSlice(es, t, e, i);
  }

  /** The split point is the one place where the slice grows that leaves the new entry on its side. */
  lemma PointIff(es: seq<Entry>, e: Entry, n: nat)
    requires FullNode(es)
    ensures |Table(es, MAX_KEYS)| >= 2
    ensures n == Point(e.slice, Table(es, MAX_KEYS)) <==> Separates(es, e, n) && Sided(es, e, n)
  {
    PointSide(es, e);
    PointSeparates(es, e);
    PlacedAscends(es, e);
  }

  lemma PlacedAscends(es: seq<Entry>, e: Entry)
    requires Sorted(es)
    ensures forall i, j :: 0 <= i <= j < |Placed(es, e)| ==> Placed(es, e)[i].slice <= Placed(es, e)[j].slice
  {
  }

  lemma ListedIff(es: seq<Entry>, t: seq<First>, x: Slice)
    requires Proper(es, |es|, t)
    ensures Listed(t, x) <==> exists i :: 0 <= i < |es| && es[i].slice == x
  {
    if Listed(t, x) {
      var i :| 0 <= i < |t| && t[i].slice == x;
      assert es[t[i].index].slice == x;
    }
  }

  lemma LastListed(es: seq<Entry>, t: seq<First>)
    requires Sorted(es) && es != [] && Proper(es, |es|, t) && t != []
    ensures t[|t| - 1].slice == es[|es| - 1].slice
  {
    var i :| 0 <= i < |t| && t[i].slice == es[|es| - 1].slice;
    assert es[t[|t| - 1].index].slice == t[|t| - 1].slice;
  }

  lemma BeginsAt(es: seq<Entry>, t: seq<First>, i: nat)
    requires Sorted(es) && Proper(es, |es|, t) && i < |t|
    ensures t[i].index < |es| && es[t[i].index].slice == t[i].slice
    ensures i > 0 && es != [] ==> t[i].index >= 1 && es[t[i].index - 1].slice < t[i].slice
    ensures i > 0 ==> forall k :: 0 <= k < t[i].index ==> es[k].slice <= t[i - 1].slice
  {
    if i > 0 {
      assert t[i - 1].slice < t[i].slice;
      forall k | 0 <= k < t[i].index ensures es[k].slice <= t[i - 1].slice {
        var j :| 0 <= j < |t| && t[j].slice == es[k].slice;
        assert j < i;
      }
      assert t[i - 1].index < t[i].index;
    }
  }

  // ---------------------------------------------------------------- the loops of the source

  /** create_slice_table over the slices of a sorted full node. */
  method CreateSliceTable(slices: seq<Slice>, ghost es: seq<Entry>) returns (table: seq<First>, found: seq<Slice>)
    requires |slices| == |es| == MAX_KEYS && forall i :: 0 <= i < MAX_KEYS ==> slices[i] == es[i].slice
    ensures table == Table(es, MAX_KEYS)
    ensures |found| == |table| && forall i :: 0 <= i < |table| ==> found[i] == table[i].slice
  {
    table, found := [], [];
    for i := 0 to MAX_KEYS
      invariant table == Table(es, i)
      invariant |found| == |table| && forall j :: 0 <= j < |table| ==> found[j] == table[j].slice
    {
      assert slices[i] in found <==> Listed(table, slices[i]);
      if slices[i] !in found {
        table := table + [First(slices[i], i)];
        found := found + [slices[i]];
      }
    }
  }

  /** std::min_element and std::max_element. */
  method Bounds(found: seq<Slice>, ghost table: seq<First>) returns (lo: Slice, hi: Slice)
    requires table != [] && |found| == |table| && forall i :: 0 <= i < |table| ==> found[i] == table[i].slice
    ensures lo == MinSlice(table) && hi == MaxSlice(table)
  {
    var i := |found| - 1;
    lo, hi := found[i], found[i];
    while i > 0
      invariant 0 <= i < |table| && lo == MinSlice(table[i..]) && hi == MaxSlice(table[i..])
    {
      i := i - 1;
      assert table[i..][1..] == table[i + 1..];
      if !(lo < found[i]) { lo := found[i]; }
      if !(found[i] < hi) { hi := found[i]; }
    }
    assert table[0..] == table;
  }

  /** split_point. */
  method FindSplitPoint(slice: Slice, table: seq<First>, found: seq<Slice>) returns (n: nat)
    requires table != [] && (slice == MinSlice(table) ==> |table| >= 2)
    requires |found| == |table| && forall i :: 0 <= i < |table| ==> found[i] == table[i].slice
    ensures n == Point(slice, table)
  {
    var lo, hi := Bounds(found, table);
    if slice < lo { return 1; }
    if slice == lo { return table[1].index + 1; }
    if slice > hi { return MAX_KEYS; }
    assert slice in found <==> Listed(table, slice);
    MaxListed(table);
    if slice in found {
      var i := 0;
      while table[i].slice != slice
        invariant i <= FirstEqual(table, slice)
        decreases |table| - i
      {
        i := i + 1;
      }
      return table[i].index;
    } else {
      var i := 0;
      while table[i].slice <= slice
        invariant i <= FirstAbove(table, slice)
        decreases |table| - i
      {
        i := i + 1;
      }
      return table[i].index + 1;
    }
  }
}
