/**
  Reading a log file back during recovery: the read-ahead and the epoch-level verification of one
  archive (server/enclave/silo_r/silor.cpp, silor_log_archive.cpp).
 */
module LogArchive {
  import opened Base
  import opened LogChain

  /** A set's epoch is its last record's; the read-ahead looks at its first record. */
  function SetEpoch(x: LogSet): nat
    requires x.recs != []
  {
    EpochOf(x.recs[|x.recs| - 1].rec)
  }

  function FrontEpoch(x: LogSet): nat
    requires x.recs != []
  {
    EpochOf(x.recs[0].rec)
  }

  predicate Full(sets: seq<LogSet>) { forall i :: 0 <= i < |sets| ==> sets[i].recs != [] }

  /** unread: what the file holds beyond the read offset. */
  datatype Archive = Archive(unread: seq<LogSet>, buffered: seq<LogSet>, previous: Hash, matched: bool)

  predicate ArchiveOk(a: Archive) { Full(a.unread) && Full(a.buffered) }

  // ---------------------------------------------------------------- one epoch

  /** Read on until the first buffered set is of a later epoch; a record after the last hash is an error. */
  function ReadAhead(a: Archive, e: nat): Option<Archive>
    requires ArchiveOk(a)
    decreases |a.unread|
  {
    if a.unread == [] || (a.buffered != [] && FrontEpoch(a.buffered[0]) > e) then Some(a)
    else if a.matched then None
    else ReadAhead(a.(unread := a.unread[1..], buffered := a.buffered + [a.unread[0]]), e)
  }

  datatype Pass = Pass(previous: Hash, rest: seq<LogSet>, batch: seq<Rec>, matched: bool)

  /** verify_epoch_level_integrity: the sets of epoch `e` are checked, taken into the batch and erased. */
  function EpochPass(h: Hasher, last: Hash, e: nat, sets: seq<LogSet>, previous: Hash): Option<Pass>
    requires Full(sets)
  {
    if sets == [] then Some(Pass(previous, [], [], false))
    else if SetEpoch(sets[0]) != e then
      match EpochPass(h, last, e, sets[1..], previous)
      case None => None
      case Some(p) => Some(p.(rest := [sets[0]] + p.rest))
    else if sets[0].prevEpoch != previous || !Circular(h, sets[0].recs) then None
    else
      var recs := Plain(sets[0].recs);
      match EpochPass(h, last, e, sets[1..], SetHash(h, recs))
      case None => None
      case Some(p) => Some(p.(batch := recs + p.batch, matched := p.matched || SetHash(h, recs) == last))
  }

  function EpochStep(h: Hasher, last: Hash, a: Archive, e: nat): Option<(Archive, seq<Rec>)>
    requires ArchiveOk(a)
  {
    match ReadAhead(a, e)
    case None => None
    case Some(b) =>
      ReadOk(a, e);
      match EpochPass(h, last, e, b.buffered, b.previous)
      case None => None
      case Some(p) => Some((Archive(b.unread, p.rest, p.previous, b.matched || p.matched), p.batch))
  }

  lemma ReadOk(a: Archive, e: nat)
    requires ArchiveOk(a) && ReadAhead(a, e).Some?
    ensures ArchiveOk(ReadAhead(a, e).value)
    decreases |a.unread|
  {
    if !(a.unread == [] || (a.buffered != [] && FrontEpoch(a.buffered[0]) > e)) {
      ReadOk(a.(unread := a.unread[1..], buffered := a.buffered + [a.unread[0]]), e);
    }
  }

  // ---------------------------------------------------------------- the whole file

  /** What a logger that writes in epoch order writes: non-empty sets of one epoch each. */
  ghost predicate InOrder(groups: seq<seq<Rec>>) {
    && (forall i :: 0 <= i < |groups| ==> groups[i] != [])
    && (forall i, k :: 0 <= i < |groups| && 0 <= k < |groups[i]| ==> EpochOf(groups[i][k]) == GroupEpoch(groups[i]))
    && (forall i, j :: 0 <= i < j < |groups| ==> GroupEpoch(groups[i]) <= GroupEpoch(groups[j]))
  }

  lemma DropInOrder(groups: seq<seq<Rec>>, k: nat)
    requires InOrder(groups) && k <= |groups|
    ensures InOrder(groups[k..])
  {
  }

  /** The epoch of a non-empty group. */
  function GroupEpoch(group: seq<Rec>): nat { if group == [] then 0 else EpochOf(group[0]) }

  /** How many of the groups are of epochs below `n`. */
  function Below(groups: seq<seq<Rec>>, n: nat): (k: nat)
    requires InOrder(groups)
    ensures k <= |groups|
    ensures forall i :: 0 <= i < k ==> GroupEpoch(groups[i]) < n
    ensures k < |groups| ==> GroupEpoch(groups[k]) >= n
  {
    if groups == [] || GroupEpoch(groups[0]) >= n then 0
    else
      DropInOrder(groups, 1);
      1 + Below(groups[1..], n)
  }

  function Joined(groups: seq<seq<Rec>>): seq<Rec> {
    if groups == [] then [] else groups[0] + Joined(groups[1..])
  }

  predicate Hit(h: Hasher, groups: seq<seq<Rec>>, last: Hash) {
    exists i :: 0 <= i < |groups| && SetHash(h, groups[i]) == last
  }

  lemma WrittenFull(h: Hasher, groups: seq<seq<Rec>>, p: Hash)
    requires InOrder(groups)
    ensures Full(Written(h, groups, p))
    ensures forall i {:trigger Written(h, groups, p)[i]} :: 0 <= i < |groups| ==>
              var x := Written(h, groups, p)[i]; x.recs != [] && SetEpoch(x) == FrontEpoch(x) == GroupEpoch(groups[i])
  {
    var w := Written(h, groups, p);
    forall i | 0 <= i < |groups|
        ensures w[i].recs != [] && SetEpoch(w[i]) == FrontEpoch(w[i]) == GroupEpoch(groups[i]) {
      assert Plain(w[i].recs) == groups[i];
    }
  }

  lemma WrittenHead(h: Hasher, groups: seq<seq<Rec>>, p: Hash)
    requires groups != []
    ensures var w := Written(h, groups, p);
            && w[0].prevEpoch == p && Circular(h, w[0].recs) && Plain(w[0].recs) == groups[0]
            && w[1..] == Written(h, groups[1..], SetHash(h, groups[0]))
  {
    var w := Written(h, groups, p);
    assert Plain(w[0].recs) == groups[0];
    CircularIsCircle(h, w[0].recs);
  }

  /** No set of epoch `e`: nothing happens. */
  lemma {:induction false} PassNothing(h: Hasher, last: Hash, e: nat, sets: seq<LogSet>, previous: Hash)
    requires Full(sets) && forall i :: 0 <= i < |sets| ==> SetEpoch(sets[i]) != e
    ensures EpochPass(h, last, e, sets, previous) == Some(Pass(previous, sets, [], false))
  {
    if sets != [] {
      PassNothing(h, last, e, sets[1..], previous);
      assert [sets[0]] + sets[1..] == sets;
    }
  }

  /** A written set of epoch `e` passes and adds its records. */
  lemma PassHead(h: Hasher, last: Hash, e: nat, groups: seq<seq<Rec>>, p: Hash)
    requires InOrder(groups) && groups != [] && GroupEpoch(groups[0]) == e
    ensures Full(Written(h, groups, p)) && Full(Written(h, groups[1..], SetHash(h, groups[0])))
    ensures EpochPass(h, last, e, Written(h, groups, p), p)
            == match EpochPass(h, last, e, Written(h, groups[1..], SetHash(h, groups[0])), SetHash(h, groups[0]))
               case None => None
               case Some(q) => Some(q.(batch := groups[0] + q.batch,
                   matched := q.matched || SetHash(h, groups[0]) == last))
  {
    WrittenFull(h, groups, p);
    WrittenHead(h, groups, p);
    DropInOrder(groups, 1);
    WrittenFull(h, groups[1..], SetHash(h, groups[0]));
    var w := Written(h, groups, p);
    assert SetEpoch(w[0]) == e;
    hide Written, Circular, SetEpoch, SetHash;
  }

  lemma BelowTail(groups: seq<seq<Rec>>, n: nat)
    requires InOrder(groups) && Below(groups, n) > 0
    ensures InOrder(groups[1..]) && Below(groups[1..], n) == Below(groups, n) - 1
  {
    DropInOrder(groups, 1);
  }

  lemma PassNone(h: Hasher, last: Hash, e: nat, groups: seq<seq<Rec>>, p: Hash)
    requires InOrder(groups) && Below(groups, e + 1) == 0
    ensures Full(Written(h, groups, p))
    ensures EpochPass(h, last, e, Written(h, groups, p), p) == Some(Pass(p, Written(h, groups, p), [], false))
  {
    WrittenFull(h, groups, p);
    var w := Written(h, groups, p);
    forall i | 0 <= i < |w| ensures SetEpoch(w[i]) != e {
      assert GroupEpoch(groups[0]) <= GroupEpoch(groups[i]);
    }
    PassNothing(h, last, e, w, p);
  }

  /** The outcome of a pass over the sets written for `groups`, the first `k` of which are of the epoch. */
  function Passed(h: Hasher, last: Hash, groups: seq<seq<Rec>>, p: Hash, k: nat): Pass
    requires k <= |groups|
  {
    Pass(Tail(h, groups[..k], p), Written(h, groups[k..], Tail(h, groups[..k], p)), Joined(groups[..k]),
        Hit(h, groups[..k], last))
  }

  lemma PassedNone(h: Hasher, last: Hash, groups: seq<seq<Rec>>, p: Hash)
    ensures Passed(h, last, groups, p, 0) == Pass(p, Written(h, groups, p), [], false)
  {
    assert groups[..0] == [] && groups[0..] == groups;
  }

  lemma PassedMore(h: Hasher, last: Hash, groups: seq<seq<Rec>>, p: Hash, k: nat)
    requires 0 < k <= |groups|
    ensures var q := Passed(h, last, groups[1..], SetHash(h, groups[0]), k - 1);
            Passed(h, last, groups, p, k) == q.(batch := groups[0] + q.batch,
                matched := q.matched || SetHash(h, groups[0]) == last)
  {
    TakeOne(h, groups, k, p, last);
    assert groups[1..][k - 1..] == groups[k..];
  }

  lemma HeadEpoch(groups: seq<seq<Rec>>, e: nat)
    requires InOrder(groups) && groups != [] && GroupEpoch(groups[0]) >= e && Below(groups, e + 1) > 0
    ensures GroupEpoch(groups[0]) == e
    ensures groups[1..] != [] ==> GroupEpoch(groups[1]) >= e
  {
    assert groups[1..] != [] ==> GroupEpoch(groups[0]) <= GroupEpoch(groups[1]);
  }

  /** The written sets from epoch `e` on: those of epoch `e` pass, and the others stay. */
  lemma PassWritten(h: Hasher, last: Hash, e: nat, groups: seq<seq<Rec>>, p: Hash)
    requires InOrder(groups) && (groups != [] ==> GroupEpoch(groups[0]) >= e)
    ensures Full(Written(h, groups, p))
    ensures EpochPass(h, last, e, Written(h, groups, p), p) == Some(Passed(h, last, groups, p, Below(groups, e + 1)))
    decreases |groups|
  {
    WrittenFull(h, groups, p);
    if Below(groups, e + 1) == 0 {
      PassNone(h, last, e, groups, p);
      PassedNone(h, last, groups, p);
    } else {
      HeadEpoch(groups, e);
      BelowTail(groups, e + 1);
      PassMore(h, last, e, groups, p);
    }
  }

  lemma PassMore(h: Hasher, last: Hash, e: nat, groups: seq<seq<Rec>>, p: Hash)
    requires InOrder(groups) && groups != [] && GroupEpoch(groups[0]) == e && InOrder(groups[1..])
    requires groups[1..] != [] ==> GroupEpoch(groups[1]) >= e
    requires Below(groups, e + 1) > 0 && Below(groups[1..], e + 1) == Below(groups, e + 1) - 1
    ensures Full(Written(h, groups, p))
    ensures EpochPass(h, last, e, Written(h, groups, p), p) == Some(Passed(h, last, groups, p, Below(groups, e + 1)))
    decreases |groups|, 0
  {
    var k := Below(groups, e + 1);
    hide Written, EpochPass, Passed, SetHash, InOrder, GroupEpoch, Full;
    PassHead(h, last, e, groups, p);
    PassWritten(h, last, e, groups[1..], SetHash(h, groups[0]));
    PassedMore(h, last, groups, p, k);
  }

  lemma TakeOne(h: Hasher, groups: seq<seq<Rec>>, k: nat, p: Hash, last: Hash)
    requires 0 < k <= |groups|
    ensures Tail(h, groups[..k], p) == Tail(h, groups[1..][..k - 1], SetHash(h, groups[0]))
    ensures Joined(groups[..k]) == groups[0] + Joined(groups[1..][..k - 1])
    ensures Hit(h, groups[..k], last) <==> SetHash(h, groups[0]) == last || Hit(h, groups[1..][..k - 1], last)
  {
    var g, r := groups[..k], groups[1..][..k - 1];
    assert g[1..] == r && g[0] == groups[0];
    if Hit(h, r, last) {
      var i :| 0 <= i < |r| && SetHash(h, r[i]) == last;
      assert g[i + 1] == r[i];
    }
    if Hit(h, g, last) && SetHash(h, g[0]) != last {
      var i :| 0 <= i < |g| && SetHash(h, g[i]) == last;
      assert r[i - 1] == g[i];
    }
  }

  /** Nothing has been verified yet, and at most one set is buffered. */
  ghost predicate Waiting(h: Hasher, groups: seq<seq<Rec>>, p: Hash, a: Archive) {
    a.previous == p && !a.matched && a.buffered + a.unread == Written(h, groups, p) && |a.buffered| <= 1
  }

  /** The first `k` sets are verified, and the file is read to its end. */
  function Verified(h: Hasher, last: Hash, groups: seq<seq<Rec>>, p: Hash, k: nat): Archive
    requires k <= |groups|
  {
    Archive([], Written(h, groups[k..], Tail(h, groups[..k], p)), Tail(h, groups[..k], p), Hit(h, groups[..k], last))
  }

  /** The archive after the epochs below `n`. */
  ghost predicate After(h: Hasher, last: Hash, groups: seq<seq<Rec>>, p: Hash, n: nat, a: Archive)
    requires InOrder(groups)
  {
    if Below(groups, n) == 0 then Waiting(h, groups, p, a) else a == Verified(h, last, groups, p, Below(groups, n))
  }

  /** With the first buffered set of an epoch that has come, everything is read. */
  lemma {:induction false} ReadsEverything(a: Archive, e: nat)
    requires ArchiveOk(a) && !a.matched && a.buffered + a.unread != [] && FrontEpoch((a.buffered + a.unread)[0]) <= e
    ensures ReadAhead(a, e) == Some(a.(unread := [], buffered := a.buffered + a.unread))
    decreases |a.unread|
  {
    if a.unread == [] {
      assert a.buffered + a.unread == a.buffered;
    } else {
      var b := a.(unread := a.unread[1..], buffered := a.buffered + [a.unread[0]]);
      assert b.buffered + b.unread == a.buffered + a.unread;
      ReadsEverything(b, e);
    }
  }

  lemma {:induction false} TailConcat(h: Hasher, a: seq<seq<Rec>>, b: seq<seq<Rec>>, p: Hash)
    ensures Tail(h, a + b, p) == Tail(h, b, Tail(h, a, p))
  {
    if a == [] {
      assert a + b == b;
    } else {
      TailConcat(h, a[1..], b, SetHash(h, a[0]));
      assert (a + b)[1..] == a[1..] + b;
    }
  }

  lemma HitConcat(h: Hasher, a: seq<seq<Rec>>, b: seq<seq<Rec>>, last: Hash)
    ensures Hit(h, a + b, last) <==> Hit(h, a, last) || Hit(h, b, last)
  {
    if Hit(h, a, last) {
      var i :| 0 <= i < |a| && SetHash(h, a[i]) == last;
      assert (a + b)[i] == a[i];
    }
    if Hit(h, b, last) {
      var i :| 0 <= i < |b| && SetHash(h, b[i]) == last;
      assert (a + b)[|a| + i] == b[i];
    }
  }

  lemma BelowIs(groups: seq<seq<Rec>>, n: nat, k: nat)
    requires InOrder(groups) && k <= |groups|
    requires (k > 0 ==> GroupEpoch(groups[k - 1]) < n) && (k < |groups| ==> GroupEpoch(groups[k]) >= n)
    ensures Below(groups, n) == k
  {
    var m := Below(groups, n);
    assert forall i, j :: 0 <= i <= j < |groups| ==> GroupEpoch(groups[i]) <= GroupEpoch(groups[j]);
  }

  lemma BelowGrows(groups: seq<seq<Rec>>, n: nat)
    requires InOrder(groups)
    ensures Below(groups, n) <= Below(groups, n + 1)
  {
    var m := Below(groups, n + 1);
    assert m < |groups| ==> GroupEpoch(groups[m]) >= n + 1;
  }

  /** The groups of epoch `n`. */
  function Slice(groups: seq<seq<Rec>>, n: nat): seq<seq<Rec>>
    requires InOrder(groups)
  {
    BelowGrows(groups, n);
    groups[Below(groups, n)..Below(groups, n + 1)]
  }

  lemma StepIs(h: Hasher, last: Hash, a: Archive, n: nat, b: Archive, q: Pass)
    requires ArchiveOk(a) && ArchiveOk(b) && ReadAhead(a, n) == Some(b)
    requires EpochPass(h, last, n, b.buffered, b.previous) == Some(q)
    ensures EpochStep(h, last, a, n) == Some((Archive(b.unread, q.rest, q.previous, b.matched || q.matched), q.batch))
  {
  }

  lemma ReadsFirst(w: seq<LogSet>, n: nat, a: Archive)
    requires ArchiveOk(a) && w != [] && w[0].recs != [] && FrontEpoch(w[0]) > n
    requires a.buffered + a.unread == w && |a.buffered| <= 1 && !a.matched
    ensures ReadAhead(a, n) == Some(a.(unread := w[1..], buffered := [w[0]]))
  {
    if a.buffered == [] {
      assert a.unread == w && a.buffered + [w[0]] == [w[0]];
    } else {
      assert a.buffered == [w[0]] && a.unread == w[1..];
    }
  }

  /** The first set is read, if it is not already waiting. */
  lemma ReadsOne(h: Hasher, groups: seq<seq<Rec>>, p: Hash, n: nat, a: Archive)
    requires InOrder(groups) && groups != [] && ArchiveOk(a) && Waiting(h, groups, p, a) && GroupEpoch(groups[0]) > n
    ensures Full(Written(h, groups, p))
    ensures var w := Written(h, groups, p); ReadAhead(a, n) == Some(Archive(w[1..], [w[0]], p, false))
  {
    WrittenFull(h, groups, p);
    var w := Written(h, groups, p);
    assert w[0].recs != [] && FrontEpoch(w[0]) > n;
    hide Written, FrontEpoch, InOrder, Full, ReadAhead;
    ReadsFirst(w, n, a);
  }

  lemma FirstWaits(h: Hasher, last: Hash, w: seq<LogSet>, p: Hash, n: nat)
    requires Full(w) && w != [] && SetEpoch(w[0]) != n
    ensures ArchiveOk(Archive(w[1..], [w[0]], p, false))
    ensures EpochPass(h, last, n, [w[0]], p) == Some(Pass(p, [w[0]], [], false))
  {
    PassNothing(h, last, n, [w[0]], p);
  }

  lemma WaitsOne(h: Hasher, last: Hash, groups: seq<seq<Rec>>, p: Hash, n: nat)
    requires InOrder(groups) && groups != [] && GroupEpoch(groups[0]) > n
    ensures var w := Written(h, groups, p); var b := Archive(w[1..], [w[0]], p, false);
            && ArchiveOk(b) && Waiting(h, groups, p, b)
                && EpochPass(h, last, n, [w[0]], p) == Some(Pass(p, [w[0]], [], false))
  {
    WrittenFull(h, groups, p);
    var w := Written(h, groups, p);
    assert w[0].recs != [] && SetEpoch(w[0]) != n;
    hide Written, InOrder, SetEpoch, EpochPass, Full, ArchiveOk;
    FirstWaits(h, last, w, p, n);
    assert [w[0]] + w[1..] == w;
  }

  lemma WaitsEmpty(h: Hasher, last: Hash, p: Hash, n: nat, a: Archive)
    requires ArchiveOk(a) && Waiting(h, [], p, a)
    ensures EpochStep(h, last, a, n) == Some((a, []))
  {
    assert a.buffered + a.unread == [];
    PassNothing(h, last, n, [], p);
  }

  /** Before the first set's epoch: it is read, and waits. */
  lemma StepWaits(h: Hasher, last: Hash, groups: seq<seq<Rec>>, p: Hash, n: nat, a: Archive) returns (b: Archive)
    requires InOrder(groups) && ArchiveOk(a) && Waiting(h, groups, p, a) && Below(groups, n + 1) == 0
    ensures EpochStep(h, last, a, n) == Some((b, [])) && ArchiveOk(b) && Waiting(h, groups, p, b)
  {
    assert groups != [] ==> GroupEpoch(groups[0]) > n;
    hide InOrder, Written, ArchiveOk, Waiting, EpochStep, EpochPass, ReadAhead, Below;
    if groups == [] {
      b := a;
      WaitsEmpty(h, last, p, n, a);
    } else {
      ReadsOne(h, groups, p, n, a);
      WaitsOne(h, last, groups, p, n);
      var w := Written(h, groups, p);
      b := Archive(w[1..], [w[0]], p, false);
      StepIs(h, last, a, n, b, Pass(p, [w[0]], [], false));
    }
  }

  lemma VerifiedOk(h: Hasher, last: Hash, groups: seq<seq<Rec>>, p: Hash, k: nat)
    requires InOrder(groups) && k <= |groups|
    ensures ArchiveOk(Verified(h, last, groups, p, k))
  {
    DropInOrder(groups, k);
    WrittenFull(h, groups[k..], Tail(h, groups[..k], p));
  }

  lemma WrittenOk(h: Hasher, groups: seq<seq<Rec>>, p: Hash, m: bool)
    requires InOrder(groups)
    ensures ArchiveOk(Archive([], Written(h, groups, p), p, m))
  {
    WrittenFull(h, groups, p);
  }

  /** Reading everything while waiting: all that was written is buffered. */
  lemma ReadsAll(h: Hasher, groups: seq<seq<Rec>>, p: Hash, n: nat, a: Archive)
    requires InOrder(groups) && groups != [] && ArchiveOk(a) && Waiting(h, groups, p, a) && GroupEpoch(groups[0]) <= n
    ensures ReadAhead(a, n) == Some(Archive([], Written(h, groups, p), p, false))
  {
    WrittenFull(h, groups, p);
    assert FrontEpoch(Written(h, groups, p)[0]) <= n;
    hide InOrder, Written, FrontEpoch;
    ReadsEverything(a, n);
  }

  /** The first set's epoch: the whole file is read, and the sets of this epoch pass. */
  lemma StepBegins(h: Hasher, last: Hash, groups: seq<seq<Rec>>, p: Hash, n: nat, k: nat, a: Archive)
    requires InOrder(groups) && ArchiveOk(a) && Waiting(h, groups, p, a)
          && Below(groups, n) == 0 < k == Below(groups, n + 1)
    ensures EpochStep(h, last, a, n) == Some((Verified(h, last, groups, p, k), Joined(groups[..k])))
  {
    assert n <= GroupEpoch(groups[0]) < n + 1;
    hide Written, EpochPass, EpochStep, Below, InOrder, ReadAhead, Joined, Hit, Tail, Waiting, ArchiveOk, Full,
          GroupEpoch;
    ReadsAll(h, groups, p, n, a);
    PassWritten(h, last, n, groups, p);
    WrittenOk(h, groups, p, false);
    StepIs(h, last, a, n, Archive([], Written(h, groups, p), p, false), Passed(h, last, groups, p, k));
  }

  lemma PassedCompose(h: Hasher, last: Hash, groups: seq<seq<Rec>>, p: Hash, k: nat, k': nat)
    requires k <= k' <= |groups|
    ensures var v := Verified(h, last, groups, p, k); var q := Passed(h, last, groups[k..], v.previous, k' - k);
            && Verified(h, last, groups, p, k') == Archive([], q.rest, q.previous, v.matched || q.matched)
            && q.batch == Joined(groups[k..k'])
  {
    TailConcat(h, groups[..k], groups[k..k'], p);
    HitConcat(h, groups[..k], groups[k..k'], last);
    hide Written, Joined, Hit, Tail;
    assert groups[..k] + groups[k..k'] == groups[..k'];
    assert groups[k..][..k' - k] == groups[k..k'] && groups[k..][k' - k..] == groups[k'..];
  }

  lemma RestFrom(groups: seq<seq<Rec>>, n: nat)
    requires InOrder(groups)
    ensures var k, k' := Below(groups, n), Below(groups, n + 1);
            && k <= k' && InOrder(groups[k..]) && InOrder(groups[k'..]) && Below(groups[k..], n + 1) == k' - k
            && (groups[k..] != [] ==> GroupEpoch(groups[k..][0]) >= n)
  {
    var k, k' := Below(groups, n), Below(groups, n + 1);
    BelowGrows(groups, n);
    DropInOrder(groups, k);
    DropInOrder(groups, k');
    BelowIs(groups[k..], n + 1, k' - k);
  }

  lemma VerifiedReads(h: Hasher, last: Hash, groups: seq<seq<Rec>>, p: Hash, n: nat, k: nat)
    requires k <= |groups| && ArchiveOk(Verified(h, last, groups, p, k))
    ensures ReadAhead(Verified(h, last, groups, p, k), n) == Some(Verified(h, last, groups, p, k))
  {
  }

  lemma VerifiedPass(h: Hasher, last: Hash, groups: seq<seq<Rec>>, p: Hash, n: nat, k: nat, k': nat)
    requires InOrder(groups) && k == Below(groups, n) && k <= k' == Below(groups, n + 1)
    ensures var v := Verified(h, last, groups, p, k);
            && Full(v.buffered)
            && EpochPass(h, last, n, v.buffered, v.previous) == Some(Passed(h, last, groups[k..], v.previous, k' - k))
  {
    RestFrom(groups, n);
    hide EpochPass, Below, InOrder, Tail, Passed, Full, GroupEpoch, Hit;
    PassWritten(h, last, n, groups[k..], Verified(h, last, groups, p, k).previous);
  }

  /** Later on: the sets of this epoch are at the front of what is buffered. */
  lemma StepGoesOn(h: Hasher, last: Hash, groups: seq<seq<Rec>>, p: Hash, n: nat, k: nat, k': nat)
    requires InOrder(groups) && k == Below(groups, n) && k <= k' == Below(groups, n + 1)
    ensures ArchiveOk(Verified(h, last, groups, p, k))
    ensures EpochStep(h, last, Verified(h, last, groups, p, k), n)
          == Some((Verified(h, last, groups, p, k'), Joined(groups[k..k'])))
  {
    VerifiedOk(h, last, groups, p, k);
    VerifiedReads(h, last, groups, p, n, k);
    VerifiedPass(h, last, groups, p, n, k, k');
    PassedCompose(h, last, groups, p, k, k');
    hide EpochPass, EpochStep, ReadAhead, InOrder, Joined, Passed, ArchiveOk, Verified;
    var v := Verified(h, last, groups, p, k);
    StepIs(h, last, v, n, v, Passed(h, last, groups[k..], v.previous, k' - k));
  }

  // ---------------------------------------------------------------- all epochs

  /** The epoch loop over one archive: the batches of the epochs below `n`. */
  function Epochs(h: Hasher, last: Hash, a: Archive, n: nat): (r: Option<(Archive, seq<seq<Rec>>)>)
    requires ArchiveOk(a)
    ensures r.Some? ==> ArchiveOk(r.value.0) && |r.value.1| == n
  {
    if n == 0 then Some((a, []))
    else
      match Epochs(h, last, a, n - 1)
      case None => None
      case Some(before) =>
        match EpochStep(h, last, before.0, n - 1)
        case None => None
        case Some(now) => EpochStepOk(h, last, before.0, n - 1); Some((now.0, before.1 + [now.1]))
  }

  lemma EpochStepOk(h: Hasher, last: Hash, a: Archive, e: nat)
    requires ArchiveOk(a) && EpochStep(h, last, a, e).Some?
    ensures ArchiveOk(EpochStep(h, last, a, e).value.0)
  {
    ReadOk(a, e);
    var b := ReadAhead(a, e).value;
    PassOk(h, last, e, b.buffered, b.previous);
  }

  lemma {:induction false} PassOk(h: Hasher, last: Hash, e: nat, sets: seq<LogSet>, previous: Hash)
    requires Full(sets)
    ensures EpochPass(h, last, e, sets, previous).Some? ==> Full(EpochPass(h, last, e, sets, previous).value.rest)
  {
    if sets != [] {
      PassOk(h, last, e, sets[1..], if SetEpoch(sets[0]) != e then previous else SetHash(h, Plain(sets[0].recs)));
    }
  }

  function Opened(h: Hasher, groups: seq<seq<Rec>>, p: Hash): Archive { Archive(Written(h, groups, p), [], p, false) }

  /** What the epoch loop has produced before epoch `n`. */
  ghost predicate ReadsBackTo(h: Hasher, last: Hash, groups: seq<seq<Rec>>, p: Hash, n: nat,
                              r: (Archive, seq<seq<Rec>>))
    requires InOrder(groups)
  {
    && After(h, last, groups, p, n, r.0)
    && |r.1| == n && (forall e {:trigger r.1[e]} :: 0 <= e < n ==> r.1[e] == Joined(Slice(groups, e)))
    && r.0.matched == Hit(h, groups[..Below(groups, n)], last)
  }

  /**
    For any non-empty sets of non-decreasing epochs, recovery reads back what the logger wrote: every
    hash check passes, each epoch's batch holds exactly the records of that epoch in file order, and the
    last stored hash counts as found exactly when a set of the recovered epochs hashes to it.
   */
  lemma {:induction false} ReadsBack(h: Hasher, groups: seq<seq<Rec>>, p: Hash, last: Hash, n: nat)
    requires InOrder(groups)
    ensures ArchiveOk(Opened(h, groups, p)) && Epochs(h, last, Opened(h, groups, p), n).Some?
    ensures ReadsBackTo(h, last, groups, p, n, Epochs(h, last, Opened(h, groups, p), n).value)
  {
    hide After, EpochStep, InOrder, Below, Opened, Joined, Hit, ArchiveOk, Slice, ReadsBackTo;
    OpenedOk(h, last, groups, p);
    if n > 0 {
      ReadsBack(h, groups, p, last, n - 1);
      ReadsNext(h, groups, p, last, n - 1, Epochs(h, last, Opened(h, groups, p), n - 1).value);
    }
  }

  lemma ReadsNext(h: Hasher, groups: seq<seq<Rec>>, p: Hash, last: Hash, n: nat, r: (Archive, seq<seq<Rec>>))
    requires InOrder(groups) && ArchiveOk(r.0) && ReadsBackTo(h, last, groups, p, n, r)
    ensures EpochStep(h, last, r.0, n).Some?
    ensures var now := EpochStep(h, last, r.0, n).value; ReadsBackTo(h, last, groups, p, n + 1, (now.0, r.1 + [now.1]))
  {
    hide After, EpochStep, InOrder, Joined, Hit, ArchiveOk, Slice;
    var b := AfterStep(h, last, groups, p, n, r.0);
  }

  lemma OpenWaits(h: Hasher, groups: seq<seq<Rec>>, p: Hash)
    ensures Waiting(h, groups, p, Opened(h, groups, p))
  {
    hide Written;
    assert [] + Written(h, groups, p) == Written(h, groups, p);
  }

  lemma OpenedOk(h: Hasher, last: Hash, groups: seq<seq<Rec>>, p: Hash)
    requires InOrder(groups)
    ensures ArchiveOk(Opened(h, groups, p))
    ensures ReadsBackTo(h, last, groups, p, 0, (Opened(h, groups, p), []))
  {
    WrittenFull(h, groups, p);
    BelowZero(groups);
    OpenWaits(h, groups, p);
    StillWaiting(h, last, groups, p, 0, Opened(h, groups, p));
    hide Written, InOrder, Below, Waiting, After, Hit;
  }

  lemma BelowZero(groups: seq<seq<Rec>>)
    requires InOrder(groups)
    ensures Below(groups, 0) == 0
  {
  }

  lemma AfterStep(h: Hasher, last: Hash, groups: seq<seq<Rec>>, p: Hash, n: nat, a: Archive) returns (b: Archive)
    requires InOrder(groups) && ArchiveOk(a) && After(h, last, groups, p, n, a)
    ensures EpochStep(h, last, a, n) == Some((b, Joined(Slice(groups, n))))
    ensures ArchiveOk(b) && After(h, last, groups, p, n + 1, b)
          && b.matched == Hit(h, groups[..Below(groups, n + 1)], last)
  {
    BelowGrows(groups, n);
    var k, k' := Below(groups, n), Below(groups, n + 1);
    if k' == 0 {
      b := StepWaits(h, last, groups, p, n, a);
      assert Slice(groups, n) == [];
      hide InOrder, Waiting, EpochStep, Hit, ArchiveOk, After;
      StillWaiting(h, last, groups, p, n + 1, b);
    } else {
      b := Verified(h, last, groups, p, k');
      VerifiedOk(h, last, groups, p, k');
      StepVerifies(h, last, groups, p, n, a);
      hide InOrder, Waiting, EpochStep, Hit, ArchiveOk;
    }
  }

  lemma StepVerifies(h: Hasher, last: Hash, groups: seq<seq<Rec>>, p: Hash, n: nat, a: Archive)
    requires InOrder(groups) && ArchiveOk(a) && After(h, last, groups, p, n, a) && Below(groups, n + 1) > 0
    ensures EpochStep(h, last, a, n) == Some((Verified(h, last, groups, p, Below(groups, n + 1)),
          Joined(Slice(groups, n))))
  {
    BelowGrows(groups, n);
    var k, k' := Below(groups, n), Below(groups, n + 1);
    hide InOrder, Waiting, EpochStep, Hit, ArchiveOk, Verified, Joined;
    if k == 0 {
      StepBegins(h, last, groups, p, n, k', a);
      assert Slice(groups, n) == groups[..k'];
    } else {
      StepGoesOn(h, last, groups, p, n, k, k');
    }
  }

  lemma StillWaiting(h: Hasher, last: Hash, groups: seq<seq<Rec>>, p: Hash, n: nat, a: Archive)
    requires InOrder(groups) && Below(groups, n) == 0 && Waiting(h, groups, p, a)
    ensures After(h, last, groups, p, n, a) && a.matched == Hit(h, groups[..0], last)
  {
    assert groups[..0] == [];
  }

  /**
    The final check wants the hash written last.  With a hash that tells the last set from the others,
    recovery up to durable epoch `d` accepts the file if and only if the last set is of an epoch up to `d`:
    a set written but not yet durable at the crash makes recovery refuse the file.
   */
  lemma AcceptedIffDurable(h: Hasher, groups: seq<seq<Rec>>, p: Hash, d: nat)
    requires InOrder(groups) && groups != []
    requires forall i :: 0 <= i < |groups| - 1 ==> SetHash(h, groups[i]) != SetHash(h, groups[|groups| - 1])
    ensures ArchiveOk(Opened(h, groups, p)) && Epochs(h, Tail(h, groups, p), Opened(h, groups, p), d + 1).Some?
    ensures Epochs(h, Tail(h, groups, p), Opened(h, groups, p), d + 1).value.0.matched
            <==> GroupEpoch(groups[|groups| - 1]) <= d
  {
    var last := Tail(h, groups, p);
    TailIsLast(h, groups, p);
    ReadsBack(h, groups, p, last, d + 1);
    var k := Below(groups, d + 1);
    var n := |groups| - 1;
    hide Epochs, Opened;
    if GroupEpoch(groups[n]) <= d {
      BelowIs(groups, d + 1, n + 1);
      assert groups[..k][n] == groups[n];
    } else {
      forall i | 0 <= i < k ensures SetHash(h, groups[..k][i]) != last {
        assert GroupEpoch(groups[i]) < d + 1;
        assert groups[..k][i] == groups[i];
      }
    }
  }

  lemma {:induction false} TailIsLast(h: Hasher, groups: seq<seq<Rec>>, p: Hash)
    requires groups != []
    ensures Tail(h, groups, p) == SetHash(h, groups[|groups| - 1])
  {
    if |groups| > 1 {
      TailIsLast(h, groups[1..], SetHash(h, groups[0]));
    }
  }

  // ---------------------------------------------------------------- a set of an earlier epoch comes too late

  /** The archive before epoch `n` of a file whose second set is of an earlier epoch than its first. */
  function Late(h: Hasher, last: Hash, w: seq<LogSet>, g0: seq<Rec>, p: Hash, e0: nat, n: nat): Archive
    requires |w| == 2
  {
    if n == 0 then Archive(w, [], p, false)
    else if n <= e0 then Archive([w[1]], [w[0]], p, false)
    else Archive([], [w[1]], SetHash(h, g0), SetHash(h, g0) == last)
  }

  lemma {:induction false} LateStep(h: Hasher, last: Hash, w: seq<LogSet>, g0: seq<Rec>, p: Hash, e0: nat, n: nat)
    requires |w| == 2 && w[0].recs != [] && w[1].recs != [] && Plain(w[0].recs) == g0
    requires SetEpoch(w[0]) == FrontEpoch(w[0]) == e0 && SetEpoch(w[1]) < e0 && w[0].prevEpoch == p
          && Circular(h, w[0].recs)
    ensures ArchiveOk(Late(h, last, w, g0, p, e0, n))
    ensures EpochStep(h, last, Late(h, last, w, g0, p, e0, n), n)
          == Some((Late(h, last, w, g0, p, e0, n + 1), if n == e0 then g0 else []))
  {
    var a := Late(h, last, w, g0, p, e0, n);
    hide SetEpoch, FrontEpoch, Circular, SetHash;
    assert w[1..] == [w[1]] && [] + [w[0]] == [w[0]] && [w[0]] + [w[1]] == w;
    if n < e0 {
      if n > 0 {
        ReadsFirst(w, n, a);
      } else {
        assert a.buffered + a.unread == w;
        ReadsFirst(w, n, a);
      }
      PassNothing(h, last, n, [w[0]], p);
    } else if n == e0 {
      assert a.buffered + a.unread == w;
      ReadsEverything(a, n);
      PassNothing(h, last, n, w[1..], SetHash(h, g0));
      assert g0 + [] == g0;
    } else {
      PassNothing(h, last, n, [w[1]], SetHash(h, g0));
    }
  }

  lemma {:induction false} LateEpochs(h: Hasher, last: Hash, w: seq<LogSet>, g0: seq<Rec>, p: Hash, e0: nat, n: nat)
    requires |w| == 2 && w[0].recs != [] && w[1].recs != [] && Plain(w[0].recs) == g0
    requires SetEpoch(w[0]) == FrontEpoch(w[0]) == e0 && SetEpoch(w[1]) < e0 && w[0].prevEpoch == p
          && Circular(h, w[0].recs)
    ensures ArchiveOk(Archive(w, [], p, false)) && Epochs(h, last, Archive(w, [], p, false), n).Some?
    ensures var r := Epochs(h, last, Archive(w, [], p, false), n).value;
            && r.0 == Late(h, last, w, g0, p, e0, n)
            && |r.1| == n && forall e {:trigger r.1[e]} :: 0 <= e < n ==> r.1[e] == if e == e0 then g0 else []
  {
    if n > 0 {
      LateEpochs(h, last, w, g0, p, e0, n - 1);
      LateStep(h, last, w, g0, p, e0, n - 1);
      hide SetEpoch, FrontEpoch, Circular, SetHash, Late, EpochStep, ArchiveOk;
    }
  }

  /**
    Non-decreasing epochs are needed.  If a set of an earlier epoch follows one of a later epoch, as when a
    worker publishes late, then for every durable epoch its records are in no batch, and unless the two
    sets hash alike recovery refuses the file.
   */
  lemma LateSetIsLost(h: Hasher, g0: seq<Rec>, g1: seq<Rec>, p: Hash, n: nat)
    requires InOrder([g0]) && InOrder([g1]) && GroupEpoch(g1) < GroupEpoch(g0)
    ensures var last := Tail(h, [g0, g1], p);
            && ArchiveOk(Opened(h, [g0, g1], p)) && Epochs(h, last, Opened(h, [g0, g1], p), n).Some?
            && (var r := Epochs(h, last, Opened(h, [g0, g1], p), n).value;
                && (forall e :: 0 <= e < |r.1| ==> r.1[e] == if e == GroupEpoch(g0) then g0 else [])
                && (r.0.matched <==> n > GroupEpoch(g0) && SetHash(h, g0) == SetHash(h, g1)))
  {
    var groups := [g0, g1];
    var w := Written(h, groups, p);
    WrittenHead(h, groups, p);
    LateShape(h, g0, g1, p);
    LateEpochs(h, Tail(h, groups, p), w, g0, p, GroupEpoch(g0), n);
    TailIsLast(h, groups, p);
    hide Written, SetEpoch, FrontEpoch, Circular, SetHash, Epochs, InOrder;
  }

  lemma LateShape(h: Hasher, g0: seq<Rec>, g1: seq<Rec>, p: Hash)
    requires InOrder([g0]) && InOrder([g1])
    ensures var w := Written(h, [g0, g1], p);
            && |w| == 2 && w[0].recs != [] && w[1].recs != []
            && SetEpoch(w[0]) == FrontEpoch(w[0]) == GroupEpoch(g0) && SetEpoch(w[1]) == GroupEpoch(g1)
  {
    var w := Written(h, [g0, g1], p);
    assert Plain(w[0].recs) == [g0, g1][0] == [g0][0] && Plain(w[1].recs) == [g0, g1][1] == [g1][0];
  }

  // ---------------------------------------------------------------- the batch as written

  datatype Group<T> = Group(epoch: nat, recs: seq<T>)

  function Everything<T>(groups: seq<Group<T>>): seq<T> {
    if groups == [] then [] else groups[0].recs + Everything(groups[1..])
  }

  /** What the comment asks for: the records of the sets of epoch `e`. */
  function Intended<T>(groups: seq<Group<T>>, e: nat): seq<T> {
    if groups == [] then [] else (if groups[0].epoch == e then groups[0].recs else []) + Intended(groups[1..], e)
  }

  /** What the loop does: each set of epoch `e` adds every set still buffered, `kept` and later ones included. */
  function AsWritten<T>(kept: seq<Group<T>>, groups: seq<Group<T>>, e: nat): seq<T>
    decreases |groups|
  {
    if groups == [] then []
    else if groups[0].epoch == e then Everything(kept + groups) + AsWritten(kept, groups[1..], e)
    else AsWritten(kept + [groups[0]], groups[1..], e)
  }

  lemma {:induction false} EverythingLength<T>(a: seq<Group<T>>, b: seq<Group<T>>)
    ensures |Everything(a + b)| == |Everything(a)| + |Everything(b)|
  {
    if a == [] {
      assert a + b == b;
    } else {
      EverythingLength(a[1..], b);
      assert (a + b)[1..] == a[1..] + b;
    }
  }

  predicate NonEmpty<T>(groups: seq<Group<T>>) { forall i :: 0 <= i < |groups| ==> groups[i].recs != [] }
  predicate HasEpoch<T>(groups: seq<Group<T>>, e: nat) { exists i :: 0 <= i < |groups| && groups[i].epoch == e }

  lemma {:induction false} MoreIsWritten<T>(kept: seq<Group<T>>, groups: seq<Group<T>>, e: nat)
    requires NonEmpty(kept) && NonEmpty(groups)
    ensures |AsWritten(kept, groups, e)| >= |Intended(groups, e)|
    ensures HasEpoch(groups, e) && |kept| + |groups| >= 2 ==> |AsWritten(kept, groups, e)| > |Intended(groups, e)|
    ensures !HasEpoch(groups, e) ==> AsWritten(kept, groups, e) == Intended(groups, e) == []
    decreases |groups|
  {
    if groups != [] {
      var rest := groups[1..];
      assert HasEpoch(groups, e) <==> groups[0].epoch == e || HasEpoch(rest, e) by {
        if HasEpoch(rest, e) {
          var i :| 0 <= i < |rest| && rest[i].epoch == e;
          assert groups[i + 1].epoch == e;
        }
        if HasEpoch(groups, e) && groups[0].epoch != e {
          var i :| 0 <= i < |groups| && groups[i].epoch == e;
          assert rest[i - 1].epoch == e;
        }
      }
      if groups[0].epoch == e {
        MoreIsWritten(kept, rest, e);
        EverythingLength(kept, groups);
        assert kept != [] ==> |Everything(kept)| >= |kept[0].recs| > 0;
        assert rest != [] ==> |Everything(rest)| >= |rest[0].recs| > 0;
      } else {
        MoreIsWritten(kept + [groups[0]], rest, e);
      }
    }
  }

  /** The loop as written yields the intended batch exactly when no set of the epoch is buffered, or nothing else is. */
  lemma BatchAsWritten<T>(groups: seq<Group<T>>, e: nat)
    requires NonEmpty(groups)
    ensures AsWritten([], groups, e) == Intended(groups, e) <==> !HasEpoch(groups, e) || |groups| == 1
  {
    MoreIsWritten([], groups, e);
    if |groups| == 1 {
      assert [] + groups == groups && groups[1..] == [];
      assert HasEpoch(groups, e) ==> groups[0].epoch == e;
      assert Everything(groups) == groups[0].recs + [];
      assert AsWritten([], groups[1..], e) == [] && Intended(groups[1..], e) == [];
    }
  }

  // ---------------------------------------------------------------- the loop of the source

  /** What is left of a pass, put behind what the loop has kept and taken so far. */
  function Resumed(kept: seq<LogSet>, batch: seq<Rec>, matched: bool, rest: Option<Pass>): Option<Pass> {
    match rest
    case None => None
    case Some(q) => Some(Pass(q.previous, kept + q.rest, batch + q.batch, matched || q.matched))
  }

  lemma PassTake(h: Hasher, last: Hash, e: nat, kept: seq<LogSet>, sets: seq<LogSet>, previous: Hash, batch: seq<Rec>,
                 matched: bool)
    requires Full(sets) && sets != [] && SetEpoch(sets[0]) == e && sets[0].prevEpoch == previous
          && Circular(h, sets[0].recs)
    ensures var recs := Plain(sets[0].recs);
            Resumed(kept, batch, matched, EpochPass(h, last, e, sets, previous))
            == Resumed(kept, batch + recs, matched || SetHash(h, recs) == last,
                EpochPass(h, last, e, sets[1..], SetHash(h, recs)))
  {
    var recs := Plain(sets[0].recs);
    var rest := EpochPass(h, last, e, sets[1..], SetHash(h, recs));
    if rest.Some? {
      assert batch + (recs + rest.value.batch) == batch + recs + rest.value.batch;
    }
  }

  lemma PassKeep(h: Hasher, last: Hash, e: nat, kept: seq<LogSet>, sets: seq<LogSet>, previous: Hash, batch: seq<Rec>,
                 matched: bool)
    requires Full(sets) && sets != [] && SetEpoch(sets[0]) != e
    ensures Resumed(kept, batch, matched, EpochPass(h, last, e, sets, previous))
            == Resumed(kept + [sets[0]], batch, matched, EpochPass(h, last, e, sets[1..], previous))
  {
    var rest := EpochPass(h, last, e, sets[1..], previous);
    if rest.Some? {
      assert kept + ([sets[0]] + rest.value.rest) == kept + [sets[0]] + rest.value.rest;
    }
  }

  lemma PassEnds(h: Hasher, last: Hash, e: nat, kept: seq<LogSet>, previous: Hash, batch: seq<Rec>, matched: bool)
    ensures Resumed(kept, batch, matched, EpochPass(h, last, e, [], previous))
          == Some(Pass(previous, kept, batch, matched))
  {
    assert kept + [] == kept && batch + [] == batch;
  }

  lemma PassStarts(h: Hasher, last: Hash, e: nat, sets: seq<LogSet>, previous: Hash)
    requires Full(sets)
    ensures Resumed([], [], false, EpochPass(h, last, e, sets, previous)) == EpochPass(h, last, e, sets, previous)
  {
    var q := EpochPass(h, last, e, sets, previous);
    if q.Some? {
      assert [] + q.value.rest == q.value.rest && [] + q.value.batch == q.value.batch;
    }
  }

  class RecoveryLogArchive {
    const h: Hasher
    const lastLogHash: Hash
    var previousEpochHash: Hash
    var bufferedLogRecords: seq<LogSet>
    var isLastLogHashMatched: bool

    constructor (h: Hasher, start: Hash, last: Hash)
      ensures this.h == h && lastLogHash == last && previousEpochHash == start && bufferedLogRecords == []
            && !isLastLogHashMatched
    {
      this.h := h;
      lastLogHash, previousEpochHash, bufferedLogRecords, isLastLogHashMatched := last, start, [], false;
    }

    /**
      verify_epoch_level_integrity: `batch` is what its comment asks for, `inserted` what its inner loop adds
      to the epoch's records.
     */
    method VerifyEpochLevelIntegrity(e: nat) returns (code: int, batch: seq<Rec>, inserted: seq<Rec>)
      requires Full(bufferedLogRecords)
      modifies this
      ensures code == 0 <==> old(EpochPass(h, lastLogHash, e, bufferedLogRecords, previousEpochHash)).Some?
      ensures code == 0 ==>
                var p := old(EpochPass(h, lastLogHash, e, bufferedLogRecords, previousEpochHash)).value;
                && previousEpochHash == p.previous && bufferedLogRecords == p.rest && batch == p.batch
                && isLastLogHashMatched == (old(isLastLogHashMatched) || p.matched)
                && inserted == old(AsWritten([], GroupsOf(bufferedLogRecords), e))
    {
      hide EpochPass, AsWritten, Everything, GroupsOf, Resumed, Circular, Going, SetEpoch, SetHash;
      ghost var whole := EpochPass(h, lastLogHash, e, bufferedLogRecords, previousEpochHash);
      ghost var written := AsWritten([], GroupsOf(bufferedLogRecords), e);
      ghost var matched := false;
      batch, inserted := [], [];
      var it := 0;
      assert bufferedLogRecords[..0] == [] && bufferedLogRecords[0..] == bufferedLogRecords;
      GoStart(h, lastLogHash, e, bufferedLogRecords, previousEpochHash);
      while it < |bufferedLogRecords|
        invariant it <= |bufferedLogRecords| && Full(bufferedLogRecords)
        invariant isLastLogHashMatched == (old(isLastLogHashMatched) || matched)
        invariant Going(h, lastLogHash, e, whole, written, bufferedLogRecords[..it], bufferedLogRecords[it..],
              previousEpochHash, batch, inserted, matched)
        decreases |bufferedLogRecords| - it
      {
        ghost var kept, sets := bufferedLogRecords[..it], bufferedLogRecords[it..];
        assert bufferedLogRecords == kept + sets;
        GoOn(h, lastLogHash, e, whole, written, kept, sets, previousEpochHash, batch, inserted, matched);
        var x := bufferedLogRecords[it];
        if SetEpoch(x) == e {
          if x.prevEpoch != previousEpochHash {
            return -1, batch, inserted;
          }
          var current := SetHash(h, Plain(x.recs));
          previousEpochHash := current;
          if current == lastLogHash {
            isLastLogHashMatched, matched := true, true;
          }
          var linked := VerifyLogLevel(h, x);
          if !linked {
            return -2, batch, inserted;
          }
          batch := batch + Plain(x.recs);
          var all := AllRecords(bufferedLogRecords);
          inserted := inserted + all;
          bufferedLogRecords := bufferedLogRecords[..it] + bufferedLogRecords[it + 1..];
          assert bufferedLogRecords[..it] == kept && bufferedLogRecords[it..] == sets[1..];
        } else {
          it := it + 1;
          assert bufferedLogRecords[..it] == kept + [sets[0]] && bufferedLogRecords[it..] == sets[1..];
        }
      }
      assert bufferedLogRecords[it..] == [] && bufferedLogRecords[..it] == bufferedLogRecords;
      GoEnd(h, lastLogHash, e, whole, written, bufferedLogRecords, previousEpochHash, batch, inserted, matched);
      code := 0;
    }
  }

  /** The loop has kept `kept` and still has `sets` to look at, of a pass `whole` that inserts `written`. */
  ghost predicate Going(h: Hasher, last: Hash, e: nat, whole: Option<Pass>, written: seq<Rec>, kept: seq<LogSet>,
                        sets: seq<LogSet>,
                        previous: Hash, batch: seq<Rec>, inserted: seq<Rec>, matched: bool) {
    && Full(kept) && Full(sets) && whole == Resumed(kept, batch, matched, EpochPass(h, last, e, sets, previous))
    && written == inserted + AsWritten(GroupsOf(kept), GroupsOf(sets), e)
  }

  lemma GoStart(h: Hasher, last: Hash, e: nat, sets: seq<LogSet>, previous: Hash)
    requires Full(sets)
    ensures Going(h, last, e, EpochPass(h, last, e, sets, previous), AsWritten([], GroupsOf(sets), e), [], sets,
          previous, [], [], false)
  {
    PassStarts(h, last, e, sets, previous);
    assert GroupsOf([]) == [] && [] + AsWritten([], GroupsOf(sets), e) == AsWritten([], GroupsOf(sets), e);
  }

  /** One turn of the loop. */
  lemma GoOn(h: Hasher, last: Hash, e: nat, whole: Option<Pass>, written: seq<Rec>, kept: seq<LogSet>,
             sets: seq<LogSet>,
                                previous: Hash, batch: seq<Rec>, inserted: seq<Rec>, matched: bool)
    requires Going(h, last, e, whole, written, kept, sets, previous, batch, inserted, matched) && sets != []
    ensures Full(kept + sets) && sets[0].recs != []
    ensures var x, recs := sets[0], Plain(sets[0].recs);
            if SetEpoch(x) != e then Going(h, last, e, whole, written, kept + [x], sets[1..], previous, batch,
                inserted, matched)
            else if x.prevEpoch == previous && Circular(h, x.recs) then
              Going(h, last, e, whole, written, kept, sets[1..], SetHash(h, recs), batch + recs,
                  inserted + Everything(GroupsOf(kept + sets)),
                    matched || SetHash(h, recs) == last)
            else whole == None
  {
    WrittenOnce(kept, sets, e, inserted);
    if SetEpoch(sets[0]) != e {
      PassKeep(h, last, e, kept, sets, previous, batch, matched);
    } else if sets[0].prevEpoch == previous && Circular(h, sets[0].recs) {
      PassTake(h, last, e, kept, sets, previous, batch, matched);
    }
    hide SetEpoch, Circular, SetHash, AsWritten, GroupsOf, Everything;
  }

  lemma GoEnd(h: Hasher, last: Hash, e: nat, whole: Option<Pass>, written: seq<Rec>, kept: seq<LogSet>, previous: Hash,
              batch: seq<Rec>,
              inserted: seq<Rec>, matched: bool)
    requires Going(h, last, e, whole, written, kept, [], previous, batch, inserted, matched)
    ensures whole == Some(Pass(previous, kept, batch, matched)) && written == inserted
  {
    PassEnds(h, last, e, kept, previous, batch, matched);
    assert inserted + [] == inserted;
  }

  // ---------------------------------------------------------------- the inner loop

  /** Buffered sets as groups of records. */
  function GroupsOf(sets: seq<LogSet>): (groups: seq<Group<Rec>>)
    requires Full(sets)
    ensures |groups| == |sets|
    ensures forall i :: 0 <= i < |sets| ==> groups[i] == Group(SetEpoch(sets[i]), Plain(sets[i].recs))
  {
    seq(|sets|, i requires 0 <= i < |sets| => Group(SetEpoch(sets[i]), Plain(sets[i].recs)))
  }

  lemma {:induction false} EverythingGrows(groups: seq<Group<Rec>>, k: nat)
    requires k < |groups|
    ensures Everything(groups[..k + 1]) == Everything(groups[..k]) + groups[k].recs
  {
    if k == 0 {
      assert groups[..1][1..] == [] && groups[..0] == [];
    } else {
      EverythingGrows(groups[1..], k - 1);
      assert groups[..k + 1][1..] == groups[1..][..k] && groups[..k][1..] == groups[1..][..k - 1];
    }
  }

  /** The records of all buffered sets. */
  method AllRecords(sets: seq<LogSet>) returns (recs: seq<Rec>)
    requires Full(sets)
    ensures recs == Everything(GroupsOf(sets))
  {
    recs := [];
    ghost var groups := GroupsOf(sets);
    assert groups[..0] == [];
    for k := 0 to |sets|
      invariant recs == Everything(groups[..k])
    {
      EverythingGrows(groups, k);
      recs := recs + Plain(sets[k].recs);
    }
    assert groups[..|sets|] == groups;
  }

  /** One turn of the outer loop, as far as what it inserts goes. */
  lemma WrittenOnce(kept: seq<LogSet>, sets: seq<LogSet>, e: nat, before: seq<Rec>)
    requires Full(kept) && Full(sets) && sets != []
    ensures Full(kept + sets) && Full(sets[1..]) && Full(kept + [sets[0]])
    ensures before + AsWritten(GroupsOf(kept), GroupsOf(sets), e)
            == if SetEpoch(sets[0]) == e
               then (before + Everything(GroupsOf(kept + sets))) + AsWritten(GroupsOf(kept), GroupsOf(sets[1..]), e)
               else before + AsWritten(GroupsOf(kept + [sets[0]]), GroupsOf(sets[1..]), e)
  {
    assert GroupsOf(kept + sets) == GroupsOf(kept) + GroupsOf(sets);
    assert GroupsOf(sets)[1..] == GroupsOf(sets[1..]);
    assert GroupsOf(kept + [sets[0]]) == GroupsOf(kept) + [GroupsOf(sets)[0]];
    hide Everything;
  }

  /** The batch of a pass is what the comment asks for. */
  lemma {:induction false} PassIsIntended(h: Hasher, last: Hash, e: nat, sets: seq<LogSet>, previous: Hash)
    requires Full(sets) && EpochPass(h, last, e, sets, previous).Some?
    ensures EpochPass(h, last, e, sets, previous).value.batch == Intended(GroupsOf(sets), e)
  {
    hide Circular, SetHash, SetEpoch;
    if sets != [] {
      assert GroupsOf(sets)[1..] == GroupsOf(sets[1..]);
      PassIsIntended(h, last, e, sets[1..], if SetEpoch(sets[0]) == e then SetHash(h, Plain(sets[0].recs))
          else previous);
    }
  }
}
