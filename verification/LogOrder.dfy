/**
  Which log files recovery reads back: exactly those whose sets are in epoch order
  (server/enclave/silo_r/silor.cpp, silor_log_archive.cpp).  The chain of set hashes forces the sets to be taken in
  file order, and the epoch loop takes them by epoch.
 */
module LogOrder {
  import opened Base
  import opened LogChain
  import opened LogArchive

  /** Non-empty sets of one epoch each, in any order. */
  ghost predicate OneEpochEach(groups: seq<seq<Rec>>) {
    && (forall i :: 0 <= i < |groups| ==> groups[i] != [])
    && (forall i, k :: 0 <= i < |groups| && 0 <= k < |groups[i]| ==> EpochOf(groups[i][k]) == GroupEpoch(groups[i]))
  }

  ghost predicate Ascending(groups: seq<seq<Rec>>) {
    forall i, j :: 0 <= i < j < |groups| ==> GroupEpoch(groups[i]) <= GroupEpoch(groups[j])
  }

  /** The hash that set `i` must carry. */
  function Link(h: Hasher, groups: seq<seq<Rec>>, p: Hash, i: nat): Hash
    requires i <= |groups|
  {
    if i == 0 then p else SetHash(h, groups[i - 1])
  }

  /** The hash tells the sets from each other and from the start. */
  ghost predicate Telling(h: Hasher, groups: seq<seq<Rec>>, p: Hash) {
    forall i, j :: 0 <= i < j <= |groups| ==> Link(h, groups, p, i) != Link(h, groups, p, j)
  }

  lemma {:induction false} WrittenAt(h: Hasher, groups: seq<seq<Rec>>, p: Hash, i: nat)
    requires i < |groups|
    ensures var x := Written(h, groups, p)[i]; x.prevEpoch == Link(h, groups, p, i) && Plain(x.recs) == groups[i]
  {
    if i > 0 {
      WrittenAt(h, groups[1..], SetHash(h, groups[0]), i - 1);
    }
  }

  /** A set as the writer made it. */
  ghost predicate IsSet(h: Hasher, groups: seq<seq<Rec>>, p: Hash, x: LogSet, i: nat)
    requires i < |groups|
  {
    x.prevEpoch == Link(h, groups, p, i) && Plain(x.recs) == groups[i]
  }

  /** `x` is one of the sets. */
  ghost predicate IsOne(h: Hasher, groups: seq<seq<Rec>>, p: Hash, x: LogSet) {
    exists i :: 0 <= i < |groups| && IsSet(h, groups, p, x, i)
  }

  ghost predicate AreSets(h: Hasher, groups: seq<seq<Rec>>, p: Hash, sets: seq<LogSet>) {
    forall k :: 0 <= k < |sets| ==> IsOne(h, groups, p, sets[k])
  }

  lemma SetEpochIs(h: Hasher, groups: seq<seq<Rec>>, p: Hash, x: LogSet, i: nat)
    requires OneEpochEach(groups) && i < |groups| && IsSet(h, groups, p, x, i)
    ensures x.recs != [] && SetEpoch(x) == GroupEpoch(groups[i])
  {
    assert |Plain(x.recs)| == |x.recs|;
    assert groups[i][|groups[i]| - 1] == x.recs[|x.recs| - 1].rec;
  }

  lemma SetsFull(h: Hasher, groups: seq<seq<Rec>>, p: Hash, sets: seq<LogSet>)
    requires OneEpochEach(groups) && AreSets(h, groups, p, sets)
    ensures Full(sets)
  {
    forall k | 0 <= k < |sets| ensures sets[k].recs != [] {
      assert IsOne(h, groups, p, sets[k]);
      var i :| 0 <= i < |groups| && IsSet(h, groups, p, sets[k], i);
      SetEpochIs(h, groups, p, sets[k], i);
    }
  }

  // ---------------------------------------------------------------- one pass takes sets in file order

  /** What the sets from `m` up to `n` add: all of epoch `e`. */
  ghost predicate Takes(h: Hasher, groups: seq<seq<Rec>>, p: Hash, e: nat, m: nat, n: nat, q: Pass) {
    && m <= n <= |groups| && (forall i :: m <= i < n ==> GroupEpoch(groups[i]) == e)
    && q.previous == Link(h, groups, p, n) && q.batch == Joined(groups[m..n]) && AreSets(h, groups, p, q.rest)
  }

  lemma SetsJoin(h: Hasher, groups: seq<seq<Rec>>, p: Hash, a: seq<LogSet>, b: seq<LogSet>)
    ensures AreSets(h, groups, p, a + b) <==> AreSets(h, groups, p, a) && AreSets(h, groups, p, b)
  {
    hide IsOne;
    if AreSets(h, groups, p, a + b) {
      assert forall k :: 0 <= k < |a| ==> a[k] == (a + b)[k];
      assert forall k :: 0 <= k < |b| ==> b[k] == (a + b)[|a| + k];
    }
  }

  /** A set of another epoch is passed over. */
  lemma PassSkips(h: Hasher, last: Hash, groups: seq<seq<Rec>>, p: Hash, e: nat, sets: seq<LogSet>, m: nat, n: nat)
    requires sets != [] && AreSets(h, groups, p, sets) && Full(sets) && m <= |groups| && SetEpoch(sets[0]) != e
    requires EpochPass(h, last, e, sets, Link(h, groups, p, m)).Some?
    requires var q := EpochPass(h, last, e, sets[1..], Link(h, groups, p, m)); q.Some? ==>
          Takes(h, groups, p, e, m, n, q.value)
    ensures Takes(h, groups, p, e, m, n, EpochPass(h, last, e, sets, Link(h, groups, p, m)).value)
  {
    hide Circular, SetHash, AreSets, Joined;
    assert sets == [sets[0]] + sets[1..];
    SetsJoin(h, groups, p, [sets[0]], sets[1..]);
    SetsJoin(h, groups, p, [sets[0]], EpochPass(h, last, e, sets[1..], Link(h, groups, p, m)).value.rest);
  }

  /** A set of the epoch is taken if it is the next one of the file. */
  lemma PassTakesOne(h: Hasher, last: Hash, groups: seq<seq<Rec>>, p: Hash, e: nat, sets: seq<LogSet>, m: nat, n: nat)
    requires sets != [] && Full(sets) && m < |groups| && IsSet(h, groups, p, sets[0], m)
          && SetEpoch(sets[0]) == e == GroupEpoch(groups[m])
    requires EpochPass(h, last, e, sets, Link(h, groups, p, m)).Some?
    requires var q := EpochPass(h, last, e, sets[1..], Link(h, groups, p, m + 1)); q.Some? ==>
          Takes(h, groups, p, e, m + 1, n, q.value)
    ensures Takes(h, groups, p, e, m, n, EpochPass(h, last, e, sets, Link(h, groups, p, m)).value)
  {
    hide Circular, SetHash, AreSets;
    assert groups[m..n][1..] == groups[m + 1..n];
  }

  lemma {:induction false} PassTakes(h: Hasher, last: Hash, groups: seq<seq<Rec>>, p: Hash, e: nat, sets: seq<LogSet>,
                                     m: nat) returns (n: nat)
    requires OneEpochEach(groups) && Telling(h, groups, p) && AreSets(h, groups, p, sets) && Full(sets) && m <= |groups|
    requires EpochPass(h, last, e, sets, Link(h, groups, p, m)).Some?
    ensures Takes(h, groups, p, e, m, n, EpochPass(h, last, e, sets, Link(h, groups, p, m)).value)
  {
    if sets == [] {
      n := m;
      assert groups[m..m] == [];
    } else {
      hide Circular, SetHash, Takes, Joined;
      var x := sets[0];
      assert IsOne(h, groups, p, x);
      var i :| 0 <= i < |groups| && IsSet(h, groups, p, x, i);
      SetEpochIs(h, groups, p, x, i);
      assert sets == [x] + sets[1..];
      SetsJoin(h, groups, p, [x], sets[1..]);
      hide AreSets;
      if SetEpoch(x) != e {
        n := PassTakes(h, last, groups, p, e, sets[1..], m);
        PassSkips(h, last, groups, p, e, sets, m, n);
      } else {
        assert i == m;
        n := PassTakes(h, last, groups, p, e, sets[1..], m + 1);
        PassTakesOne(h, last, groups, p, e, sets, m, n);
      }
    }
  }

  // ---------------------------------------------------------------- the epoch loop takes a prefix of the file

  /** Before epoch `n` the first `m` sets have been taken, in epoch order. */
  ghost predicate Progress(h: Hasher, groups: seq<seq<Rec>>, p: Hash, n: nat, m: nat, a: Archive) {
    && m <= |groups| && a.previous == Link(h, groups, p, m) && AreSets(h, groups, p, a.buffered + a.unread)
    && (forall i :: 0 <= i < m ==> GroupEpoch(groups[i]) < n) && Ascending(groups[..m])
  }

  lemma {:induction false} ReadAheadKeeps(a: Archive, e: nat)
    requires ArchiveOk(a) && ReadAhead(a, e).Some?
    ensures var b := ReadAhead(a, e).value; b.buffered + b.unread == a.buffered + a.unread && b.previous == a.previous
    decreases |a.unread|
  {
    if !(a.unread == [] || (a.buffered != [] && FrontEpoch(a.buffered[0]) > e)) {
      var next := a.(unread := a.unread[1..], buffered := a.buffered + [a.unread[0]]);
      assert next.buffered + next.unread == a.buffered + a.unread;
      ReadAheadKeeps(next, e);
    }
  }

  lemma StepTakes(h: Hasher, last: Hash, groups: seq<seq<Rec>>, p: Hash, n: nat, m: nat, a: Archive) returns (m': nat)
    requires OneEpochEach(groups) && Telling(h, groups, p) && ArchiveOk(a) && Progress(h, groups, p, n, m, a)
    requires EpochStep(h, last, a, n).Some?
    ensures var r := EpochStep(h, last, a, n).value;
            m <= m' && Progress(h, groups, p, n + 1, m', r.0) && r.1 == Joined(groups[m..m'])
  {
    hide EpochPass, Joined, Telling, OneEpochEach;
    var b := ReadAhead(a, n).value;
    ReadOk(a, n);
    ReadAheadKeeps(a, n);
    SetsJoin(h, groups, p, b.buffered, b.unread);
    m' := PassTakes(h, last, groups, p, n, b.buffered, m);
    SetsJoin(h, groups, p, EpochPass(h, last, n, b.buffered, b.previous).value.rest, b.unread);
    StillAscending(groups, n, m, m');
  }

  lemma StillAscending(groups: seq<seq<Rec>>, n: nat, m: nat, m': nat)
    requires m <= m' <= |groups| && (forall i :: 0 <= i < m ==> GroupEpoch(groups[i]) < n) && Ascending(groups[..m])
    requires forall i :: m <= i < m' ==> GroupEpoch(groups[i]) == n
    ensures Ascending(groups[..m'])
  {
    forall i, j | 0 <= i < j < m' ensures GroupEpoch(groups[..m'][i]) <= GroupEpoch(groups[..m'][j]) {
      if j < m {
        assert GroupEpoch(groups[..m][i]) <= GroupEpoch(groups[..m][j]);
      }
    }
  }

  function Total(batches: seq<seq<Rec>>): nat {
    if batches == [] then 0 else Total(batches[..|batches| - 1]) + |batches[|batches| - 1]|
  }

  lemma {:induction false} JoinedConcat(a: seq<seq<Rec>>, b: seq<seq<Rec>>)
    ensures Joined(a + b) == Joined(a) + Joined(b)
  {
    if a == [] {
      assert a + b == b;
    } else {
      JoinedConcat(a[1..], b);
      assert (a + b)[1..] == a[1..] + b;
    }
  }

  lemma OpenedProgress(h: Hasher, groups: seq<seq<Rec>>, p: Hash)
    requires OneEpochEach(groups)
    ensures ArchiveOk(Opened(h, groups, p)) && Progress(h, groups, p, 0, 0, Opened(h, groups, p))
  {
    var w := Written(h, groups, p);
    forall k | 0 <= k < |w| ensures IsOne(h, groups, p, w[k]) {
      WrittenAt(h, groups, p, k);
      assert IsSet(h, groups, p, w[k], k);
    }
    SetsFull(h, groups, p, w);
    assert [] + w == w;
  }

  lemma {:induction false} LoopTakes(h: Hasher, last: Hash, groups: seq<seq<Rec>>, p: Hash, n: nat) returns (m: nat)
    requires OneEpochEach(groups) && Telling(h, groups, p) && ArchiveOk(Opened(h, groups, p))
    requires Epochs(h, last, Opened(h, groups, p), n).Some?
    ensures var r := Epochs(h, last, Opened(h, groups, p), n).value;
            Progress(h, groups, p, n, m, r.0) && Total(r.1) == |Joined(groups[..m])|
  {
    hide Progress, EpochStep, Joined, Telling, OneEpochEach, Opened, ArchiveOk;
    if n == 0 {
      OpenedProgress(h, groups, p);
      m := 0;
      JoinedNone(groups);
    } else {
      var before := LoopTakes(h, last, groups, p, n - 1);
      var r := Epochs(h, last, Opened(h, groups, p), n - 1).value;
      m := StepTakes(h, last, groups, p, n - 1, before, r.0);
      ProgressBound(h, groups, p, n, m, EpochStep(h, last, r.0, n - 1).value.0);
      assert groups[..m] == groups[..before] + groups[before..m];
      JoinedConcat(groups[..before], groups[before..m]);
    }
  }

  lemma JoinedNone(groups: seq<seq<Rec>>)
    ensures Joined(groups[..0]) == []
  {
  }

  lemma ProgressBound(h: Hasher, groups: seq<seq<Rec>>, p: Hash, n: nat, m: nat, a: Archive)
    requires Progress(h, groups, p, n, m, a)
    ensures m <= |groups|
  {
  }

  // ---------------------------------------------------------------- read back exactly

  /** The sets of epoch `e`, in file order. */
  function Those(groups: seq<seq<Rec>>, e: nat): seq<seq<Rec>> {
    if groups == [] then [] else (if GroupEpoch(groups[0]) == e then [groups[0]] else []) + Those(groups[1..], e)
  }

  /** No check fails, and the batch of every epoch is exactly that epoch's records. */
  ghost predicate ReadsExactly(h: Hasher, last: Hash, groups: seq<seq<Rec>>, p: Hash, n: nat) {
    && ArchiveOk(Opened(h, groups, p))
    && var r := Epochs(h, last, Opened(h, groups, p), n);
       r.Some? && forall e {:trigger r.value.1[e]} :: 0 <= e < n ==> r.value.1[e] == Joined(Those(groups, e))
  }

  function Sum(groups: seq<seq<Rec>>, n: nat): nat {
    if n == 0 then 0 else Sum(groups, n - 1) + |Joined(Those(groups, n - 1))|
  }

  lemma {:induction false} SumTotal(groups: seq<seq<Rec>>, batches: seq<seq<Rec>>)
    requires forall e :: 0 <= e < |batches| ==> batches[e] == Joined(Those(groups, e))
    ensures Total(batches) == Sum(groups, |batches|)
  {
    hide Joined, Those;
    if batches != [] {
      SumTotal(groups, batches[..|batches| - 1]);
    }
  }

  lemma {:induction false} SumStep(groups: seq<seq<Rec>>, n: nat)
    requires groups != []
    ensures Sum(groups, n) == Sum(groups[1..], n) + if GroupEpoch(groups[0]) < n then |groups[0]| else 0
  {
    if n > 0 {
      SumStep(groups, n - 1);
      var first: seq<seq<Rec>> := if GroupEpoch(groups[0]) == n - 1 then [groups[0]] else [];
      JoinedConcat(first, Those(groups[1..], n - 1));
      assert Joined([groups[0]]) == groups[0] + Joined([]);
    }
  }

  lemma {:induction false} SumIsAll(groups: seq<seq<Rec>>, n: nat)
    requires forall i :: 0 <= i < |groups| ==> GroupEpoch(groups[i]) < n
    ensures Sum(groups, n) == |Joined(groups)|
  {
    if groups == [] {
      SumNone(n);
    } else {
      SumStep(groups, n);
      SumIsAll(groups[1..], n);
    }
  }

  lemma {:induction false} SumNone(n: nat)
    ensures Sum([], n) == 0
  {
    if n > 0 { SumNone(n - 1); }
  }

  lemma {:induction false} JoinedLength(groups: seq<seq<Rec>>)
    requires forall i :: 0 <= i < |groups| ==> groups[i] != []
    ensures |Joined(groups)| >= |groups|
  {
    if groups != [] { JoinedLength(groups[1..]); }
  }

  /** If every record was found every set was taken, and they are taken in epoch order. */
  lemma {:induction false} ExactlyMeansOrder(h: Hasher, last: Hash, groups: seq<seq<Rec>>, p: Hash, n: nat)
    requires OneEpochEach(groups) && Telling(h, groups, p)
          && (forall i :: 0 <= i < |groups| ==> GroupEpoch(groups[i]) < n)
    requires ReadsExactly(h, last, groups, p, n)
    ensures Ascending(groups)
  {
    var r := Epochs(h, last, Opened(h, groups, p), n).value;
    var m := LoopTakes(h, last, groups, p, n);
    SumTotal(groups, r.1);
    SumIsAll(groups, n);
    ProgressBound(h, groups, p, n, m, r.0);
    JoinedConcat(groups[..m], groups[m..]);
    assert groups == groups[..m] + groups[m..];
    JoinedLength(groups[m..]);
    assert groups[..m] == groups;
  }

  lemma {:induction false} ThoseConcat(a: seq<seq<Rec>>, b: seq<seq<Rec>>, e: nat)
    ensures Those(a + b, e) == Those(a, e) + Those(b, e)
  {
    hide GroupEpoch;
    if a == [] {
      assert a + b == b;
    } else {
      ThoseConcat(a[1..], b, e);
      assert (a + b)[1..] == a[1..] + b;
      var first: seq<seq<Rec>> := if GroupEpoch(a[0]) == e then [a[0]] else [];
      assert first + (Those(a[1..], e) + Those(b, e)) == (first + Those(a[1..], e)) + Those(b, e);
    }
  }

  lemma {:induction false} ThoseSame(groups: seq<seq<Rec>>, e: nat, same: bool)
    requires forall i :: 0 <= i < |groups| ==> (GroupEpoch(groups[i]) == e <==> same)
    ensures Those(groups, e) == if same then groups else []
  {
    if groups != [] { ThoseSame(groups[1..], e, same); }
  }

  lemma SliceBounds(groups: seq<seq<Rec>>, e: nat)
    requires InOrder(groups)
    ensures var m, n := Below(groups, e), Below(groups, e + 1);
            m <= n && forall i :: 0 <= i < |groups| ==> (GroupEpoch(groups[i]) == e <==> m <= i < n)
  {
    BelowGrows(groups, e);
    var m, n := Below(groups, e), Below(groups, e + 1);
    assert forall i, j :: 0 <= i <= j < |groups| ==> GroupEpoch(groups[i]) <= GroupEpoch(groups[j]);
    hide InOrder, GroupEpoch;
    forall i | 0 <= i < |groups| ensures GroupEpoch(groups[i]) == e <==> m <= i < n {
      if i >= n { assert GroupEpoch(groups[n]) <= GroupEpoch(groups[i]); }
      if i >= m { assert GroupEpoch(groups[m]) <= GroupEpoch(groups[i]); }
    }
  }

  lemma ThoseParts(groups: seq<seq<Rec>>, e: nat, m: nat, n: nat)
    requires m <= n <= |groups| && forall i :: 0 <= i < |groups| ==> (GroupEpoch(groups[i]) == e <==> m <= i < n)
    ensures Those(groups, e) == groups[m..n]
  {
    hide Those, GroupEpoch;
    var x, y, z := groups[..m], groups[m..n], groups[n..];
    ThoseSame(x, e, false);
    ThoseSame(y, e, true);
    ThoseSame(z, e, false);
    ThoseConcat(x + y, z, e);
    ThoseConcat(x, y, e);
    assert groups == x + y + z;
  }

  lemma SliceIsThose(groups: seq<seq<Rec>>, e: nat)
    requires InOrder(groups)
    ensures Slice(groups, e) == Those(groups, e)
  {
    SliceBounds(groups, e);
    hide InOrder;
    ThoseParts(groups, e, Below(groups, e), Below(groups, e + 1));
  }

  /**
    Recovery reads a file of non-empty one-epoch sets back - every check passes and every epoch's batch is exactly
    that epoch's records - if and only if the sets are in epoch order, for any hash that tells the sets from each
    other and from the start hash.
   */
  lemma ReadsBackIff(h: Hasher, last: Hash, groups: seq<seq<Rec>>, p: Hash, n: nat)
    requires OneEpochEach(groups) && Telling(h, groups, p)
          && (forall i :: 0 <= i < |groups| ==> GroupEpoch(groups[i]) < n)
    ensures ReadsExactly(h, last, groups, p, n) <==> Ascending(groups)
  {
    if Ascending(groups) {
      OrderMeansExactly(h, last, groups, p, n);
    } else if ReadsExactly(h, last, groups, p, n) {
      ExactlyMeansOrder(h, last, groups, p, n);
    }
  }

  lemma OrderMeansExactly(h: Hasher, last: Hash, groups: seq<seq<Rec>>, p: Hash, n: nat)
    requires OneEpochEach(groups) && Ascending(groups)
    ensures ReadsExactly(h, last, groups, p, n)
  {
    assert InOrder(groups);
    ReadsBack(h, groups, p, last, n);
    hide Epochs, Opened, ArchiveOk, Joined, Those, InOrder, Slice;
    var r := Epochs(h, last, Opened(h, groups, p), n).value;
    forall e | 0 <= e < n ensures r.1[e] == Joined(Those(groups, e)) {
      SliceIsThose(groups, e);
    }
  }
}
