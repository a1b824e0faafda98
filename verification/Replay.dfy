/**
  Recovery's replay of a sorted log (server/enclave/silo_r/silor.cpp) against running the committed
  transactions one at a time.
 */
module Replay {
  import opened Base
  import opened Tid
  import opened Silo
  import opened SiloInv
  import opened Pipeline
  import ST = SiloTheorems

  type Db = map<Rid, Val>

  /** One log record; `None`: a WRITE whose key is not in the tree dereferences a null pointer. */
  function ReplayOne(db: Option<Db>, e: LogRec): Option<Db> {
    match db
    case None => None
    case Some(m) =>
      match e.op
      case Insert => Some(if e.r in m then m else m[e.r := e.val])
      case Write => if e.r in m then Some(m[e.r := e.val]) else None
      case Delete => Some(m - {e.r})
  }

  /** The replay loop. */
  function Run(db: Option<Db>, log: seq<LogRec>): Option<Db> {
    if log == [] then db else ReplayOne(Run(db, log[..|log| - 1]), log[|log| - 1])
  }

  /** `std::sort` by TID word leaves equal stamps in any order. */
  predicate ByTid(log: seq<LogRec>) {
    forall i, j :: 0 <= i < j < |log| ==> AtMost(log[i].ver, log[j].ver)
  }

  /** The log of the first `n` transactions in serial order. */
  function PrefixLog(order: seq<Entry>, n: nat): seq<LogRec>
    requires n <= |order|
  {
    if n == 0 then []
    else PrefixLog(order, n - 1) + (if order[n - 1].status.Committed? then LogOf(order[n - 1].wset, order[n - 1].ver)
        else [])
  }

  // ---------------------------------------------------------------- one key at a time

  function Of(log: seq<LogRec>, r: Rid): seq<LogRec> {
    if log == [] then []
    else Of(log[..|log| - 1], r) + (if log[|log| - 1].r == r then [log[|log| - 1]] else [])
  }

  datatype Cell = Crash | Holds(val: Option<Val>)

  function CellOne(c: Cell, e: LogRec): Cell {
    match c
    case Crash => Crash
    case Holds(v) =>
      match e.op
      case Insert => if v.Some? then c else Holds(Some(e.val))
      case Write => if v.Some? then Holds(Some(e.val)) else Crash
      case Delete => Holds(None)
  }

  function CellRun(c: Cell, log: seq<LogRec>): Cell {
    if log == [] then c else CellOne(CellRun(c, log[..|log| - 1]), log[|log| - 1])
  }

  function Start(db: Db, r: Rid): Cell { Holds(ST.Lookup(db, r)) }

  /** One record changes its own key only. */
  lemma OneAt(db: Db, e: LogRec, r: Rid)
    ensures match ReplayOne(Some(db), e)
            case None => e.op.Write? && CellOne(Start(db, e.r), e) == Crash
            case Some(m) => Start(m, r) == if e.r == r then CellOne(Start(db, r), e) else Start(db, r)
  {
  }

  lemma OfSnoc(log: seq<LogRec>, r: Rid, c: Cell)
    requires log != []
    ensures var front, last := log[..|log| - 1], log[|log| - 1];
            CellRun(c, Of(log, r)) == if last.r == r then CellOne(CellRun(c, Of(front, r)), last)
                else CellRun(c, Of(front, r))
  {
    var front, last := Of(log[..|log| - 1], r), log[|log| - 1];
    if last.r == r {
      assert Of(log, r)[..|front|] == front;
    } else {
      assert Of(log, r) == front;
    }
  }

  /** A replay that ends leaves every key as the records of that key alone leave it. */
  lemma {:induction false} RunAt(db: Db, log: seq<LogRec>, r: Rid)
    requires Run(Some(db), log).Some?
    ensures CellRun(Start(db, r), Of(log, r)) == Start(Run(Some(db), log).value, r)
  {
    if log != [] {
      var front := log[..|log| - 1];
      RunAt(db, front, r);
      OfSnoc(log, r, Start(db, r));
      hide Of, CellRun, CellOne, Start;
      OneAt(Run(Some(db), front).value, log[|log| - 1], r);
    }
  }

  /** A replay that crashes does so on some key. */
  lemma {:induction false} RunCrash(db: Db, log: seq<LogRec>) returns (r: Rid)
    requires Run(Some(db), log) == None
    ensures CellRun(Start(db, r), Of(log, r)) == Crash
  {
    var front, last := log[..|log| - 1], log[|log| - 1];
    if Run(Some(db), front) == None {
      r := RunCrash(db, front);
      OfSnoc(log, r, Start(db, r));
    } else {
      r := last.r;
      RunAt(db, front, r);
      OfSnoc(log, r, Start(db, r));
      OneAt(Run(Some(db), front).value, last, r);
    }
  }

  /** Only the order of the records of each key matters. */
  lemma SameByKey(db: Db, a: seq<LogRec>, b: seq<LogRec>)
    requires forall r :: Of(a, r) == Of(b, r)
    ensures Run(Some(db), a) == Run(Some(db), b)
  {
    if Run(Some(db), a) == None || Run(Some(db), b) == None {
      CrashAlike(db, a, b);
      CrashAlike(db, b, a);
    } else {
      var x, y := Run(Some(db), a).value, Run(Some(db), b).value;
      forall r ensures ST.Lookup(x, r) == ST.Lookup(y, r) {
        RunAt(db, a, r);
        RunAt(db, b, r);
        assert Start(x, r) == Start(y, r);
      }
      SameMaps(x, y);
    }
  }

  lemma CrashAlike(db: Db, a: seq<LogRec>, b: seq<LogRec>)
    requires forall r :: Of(a, r) == Of(b, r)
    ensures Run(Some(db), a) == None ==> Run(Some(db), b) == None
  {
    if Run(Some(db), a) == None {
      var r := RunCrash(db, a);
      if Run(Some(db), b).Some? {
        RunAt(db, b, r);
      }
    }
  }

  lemma SameMaps(x: Db, y: Db)
    requires forall r :: ST.Lookup(x, r) == ST.Lookup(y, r)
    ensures x == y
  {
    forall r ensures r in x <==> r in y {
      assert ST.Lookup(x, r) == ST.Lookup(y, r);
    }
    forall r | r in x ensures x[r] == y[r] {
      assert ST.Lookup(x, r) == ST.Lookup(y, r);
    }
  }

  // ---------------------------------------------------------------- any sorted order is the same per key

  predicate Strict(log: seq<LogRec>) {
    forall i, j :: 0 <= i < j < |log| ==> Below(log[i].ver, log[j].ver)
  }

  lemma {:induction false} OfConcat(a: seq<LogRec>, b: seq<LogRec>, r: Rid)
    ensures Of(a + b, r) == Of(a, r) + Of(b, r)
  {
    if b == [] {
      assert a + b == a;
    } else {
      OfConcat(a, b[..|b| - 1], r);
      assert (a + b)[..|a + b| - 1] == a + b[..|b| - 1];
    }
  }

  lemma {:induction false} OfIn(log: seq<LogRec>, r: Rid, i: nat)
    requires i < |Of(log, r)|
    ensures Of(log, r)[i] in log && Of(log, r)[i].r == r
  {
    if i < |Of(log[..|log| - 1], r)| {
      OfIn(log[..|log| - 1], r, i);
    }
  }

  lemma {:induction false} OfSorted(log: seq<LogRec>, r: Rid)
    requires ByTid(log)
    ensures ByTid(Of(log, r))
  {
    if log != [] {
      var front := log[..|log| - 1];
      OfSorted(front, r);
      forall i | 0 <= i < |Of(front, r)| ensures AtMost(Of(front, r)[i].ver, log[|log| - 1].ver) {
        OfIn(front, r, i);
      }
    }
  }

  lemma {:induction false} OfCount(log: seq<LogRec>, r: Rid, e: LogRec)
    ensures multiset(Of(log, r))[e] == if e.r == r then multiset(log)[e] else 0
  {
    if log != [] {
      var front, last := log[..|log| - 1], log[|log| - 1];
      OfCount(front, r, e);
      assert log == front + [last];
      assert Of(log, r) == Of(front, r) + (if last.r == r then [last] else []);
    }
  }

  lemma LastAgrees(a: seq<LogRec>, b: seq<LogRec>)
    requires multiset(a) == multiset(b) && ByTid(a) && Strict(b) && b != []
    ensures |a| == |b| && a[|a| - 1] == b[|b| - 1]
  {
    assert |multiset(a)| == |a| && |multiset(b)| == |b|;
    var n := |b| - 1;
    assert a[n] in multiset(b) && b[n] in multiset(a);
    var i :| 0 <= i <= n && b[i] == a[n];
    var j :| 0 <= j <= n && a[j] == b[n];
    assert AtMost(a[j].ver, a[n].ver);
  }

  lemma DropLast(a: seq<LogRec>)
    requires a != []
    ensures multiset(a[..|a| - 1]) == multiset(a) - multiset{a[|a| - 1]}
  {
    assert a == a[..|a| - 1] + [a[|a| - 1]];
  }

  lemma SortedPrefix(a: seq<LogRec>, n: nat)
    requires n <= |a|
    ensures ByTid(a) ==> ByTid(a[..n])
    ensures Strict(a) ==> Strict(a[..n])
  {
  }

  /** Two sorted lists of the same records, one of them strictly, are equal. */
  lemma {:induction false} SortedUnique(a: seq<LogRec>, b: seq<LogRec>)
    requires multiset(a) == multiset(b) && ByTid(a) && Strict(b)
    ensures a == b
    decreases |b|
  {
    hide ByTid, Strict;
    if b == [] {
      assert |multiset(a)| == |a|;
    } else {
      LastAgrees(a, b);
      DropLast(a);
      DropLast(b);
      SortedPrefix(a, |a| - 1);
      SortedPrefix(b, |b| - 1);
      SortedUnique(a[..|a| - 1], b[..|b| - 1]);
      Rejoin(a, b);
    }
  }

  lemma Rejoin(a: seq<LogRec>, b: seq<LogRec>)
    requires a != [] && b != [] && a[..|a| - 1] == b[..|b| - 1] && a[|a| - 1] == b[|b| - 1]
    ensures a == b
  {
    assert a == a[..|a| - 1] + [a[|a| - 1]];
    assert b == b[..|b| - 1] + [b[|b| - 1]];
  }

  // ---------------------------------------------------------------- the log in serial order

  predicate HasOp(e: Entry, r: Rid, op: Op) {
    e.status.Committed? && exists m :: 0 <= m < |e.wset| && e.wset[m].r == r && e.wset[m].op == op
  }

  /** No transaction writes a key that an earlier one deleted. */
  ghost predicate NoWriteAfterDelete(order: seq<Entry>, n: nat)
    requires n <= |order|
  {
    forall p, q, r :: 0 <= p < q < n && HasOp(order[p], r, Delete) ==> !HasOp(order[q], r, Write)
  }

  lemma {:induction false} LogOfKey(ws: seq<WElem>, v: Ver, r: Rid)
    requires Distinct(ws)
    ensures |Of(LogOf(ws, v), r)| <= 1
    ensures Writes(ws, r) <==> Of(LogOf(ws, v), r) != []
    ensures forall i :: 0 <= i < |Of(LogOf(ws, v), r)| ==> Of(LogOf(ws, v), r)[i].ver == v
  {
    if ws != [] {
      var front, last := ws[..|ws| - 1], ws[|ws| - 1];
      LogOfKey(front, v, r);
      assert LogOf(ws, v)[..|ws| - 1] == LogOf(front, v);
      if Writes(front, r) {
        var k :| 0 <= k < |front| && front[k].r == r;
        assert ws[k].r == r;
      }
    }
  }

  /** A record of key `r` among the first `n` transactions, and the transaction it comes from. */
  ghost predicate From(order: seq<Entry>, n: nat, r: Rid, e: LogRec)
    requires n <= |order|
  {
    exists q :: 0 <= q < n && CommittedWriter(order[q], r) && order[q].ver == e.ver
  }

  lemma FromGrows(order: seq<Entry>, n: nat, r: Rid, e: LogRec)
    requires 0 < n <= |order| && From(order, n - 1, r, e)
    ensures From(order, n, r, e)
  {
    var q :| 0 <= q < n - 1 && CommittedWriter(order[q], r) && order[q].ver == e.ver;
    assert CommittedWriter(order[q], r) && order[q].ver == e.ver;
  }

  lemma FromBelow(s: Silo.State, n: nat, r: Rid, e: LogRec)
    requires Inv(s) && 0 < n <= |s.order| && From(s.order, n - 1, r, e) && CommittedWriter(s.order[n - 1], r)
    ensures Below(e.ver, s.order[n - 1].ver)
  {
    assert OInv(s, n - 1);
  }

  lemma StrictJoin(front: seq<LogRec>, tail: seq<LogRec>)
    requires Strict(front) && |tail| <= 1 && forall i :: 0 <= i < |front| && tail != [] ==>
          Below(front[i].ver, tail[0].ver)
    ensures Strict(front + tail)
  {
  }

  /** The records of one key in serial order have growing versions. */
  lemma {:induction false} PrefixStrict(s: Silo.State, n: nat, r: Rid)
    requires Inv(s) && n <= |s.order|
    ensures Strict(Of(PrefixLog(s.order, n), r))
    ensures forall i :: 0 <= i < |Of(PrefixLog(s.order, n), r)| ==> From(s.order, n, r, Of(PrefixLog(s.order, n), r)[i])
  {
    if n > 0 {
      PrefixStrict(s, n - 1, r);
      PrefixStrictStep(s, n, r);
    }
  }

  lemma {:induction false} PrefixStrictStep(s: Silo.State, n: nat, r: Rid)
    requires Inv(s) && 0 < n <= |s.order|
    requires var front := Of(PrefixLog(s.order, n - 1), r);
             Strict(front) && forall i :: 0 <= i < |front| ==> From(s.order, n - 1, r, front[i])
    ensures var all := Of(PrefixLog(s.order, n), r);
            Strict(all) && forall i :: 0 <= i < |all| ==> From(s.order, n, r, all[i])
  {
    var e := s.order[n - 1];
    var front, all := Of(PrefixLog(s.order, n - 1), r), Of(PrefixLog(s.order, n), r);
    var tail := if e.status.Committed? then Of(LogOf(e.wset, e.ver), r) else [];
    TailOf(s, n, r);
    hide Of, PrefixLog, Inv, LogOf, Strict, Below, From;
    forall i | 0 <= i < |front| && tail != [] ensures Below(front[i].ver, tail[0].ver) {
      FromBelow(s, n, r, front[i]);
    }
    StrictJoin(front, tail);
    forall i | 0 <= i < |all| ensures From(s.order, n, r, all[i]) {
      if i < |front| {
        FromGrows(s.order, n, r, front[i]);
      } else {
        FromLast(s.order, n, r, all[i]);
      }
    }
  }

  lemma FromLast(order: seq<Entry>, n: nat, r: Rid, e: LogRec)
    requires 0 < n <= |order| && CommittedWriter(order[n - 1], r) && e.ver == order[n - 1].ver
    ensures From(order, n, r, e)
  {
  }

  lemma TailOf(s: Silo.State, n: nat, r: Rid)
    requires Inv(s) && 0 < n <= |s.order|
    ensures var e := s.order[n - 1];
            var tail := if e.status.Committed? then Of(LogOf(e.wset, e.ver), r) else [];
            && Of(PrefixLog(s.order, n), r) == Of(PrefixLog(s.order, n - 1), r) + tail
            && |tail| <= 1 && (tail != [] ==> CommittedWriter(e, r) && tail[0].ver == e.ver)
  {
    var e := s.order[n - 1];
    assert OInv(s, n - 1);
    if e.status.Committed? {
      OfConcat(PrefixLog(s.order, n - 1), LogOf(e.wset, e.ver), r);
      LogOfKey(e.wset, e.ver, r);
    } else {
      assert PrefixLog(s.order, n) == PrefixLog(s.order, n - 1);
    }
  }

  /** Any sorted arrangement of the prefix's records replays like the serial order. */
  lemma SortedIsSerial(s: Silo.State, n: nat, log: seq<LogRec>)
    requires Inv(s) && n <= |s.order|
    requires multiset(log) == multiset(PrefixLog(s.order, n)) && ByTid(log)
    ensures Run(Some(s.init), log) == Run(Some(s.init), PrefixLog(s.order, n))
  {
    var serial := PrefixLog(s.order, n);
    forall r ensures Of(log, r) == Of(serial, r) {
      forall e ensures multiset(Of(log, r))[e] == multiset(Of(serial, r))[e] {
        OfCount(log, r, e);
        OfCount(serial, r, e);
      }
      assert multiset(Of(log, r)) == multiset(Of(serial, r));
      OfSorted(log, r);
      PrefixStrict(s, n, r);
      SortedUnique(Of(log, r), Of(serial, r));
    }
    SameByKey(s.init, log, serial);
  }

  // ---------------------------------------------------------------- replay in serial order

  lemma {:induction false} RunConcat(db: Option<Db>, a: seq<LogRec>, b: seq<LogRec>)
    ensures Run(db, a + b) == Run(Run(db, a), b)
  {
    if b == [] {
      assert a + b == a;
    } else {
      RunConcat(db, a, b[..|b| - 1]);
      assert (a + b)[..|a + b| - 1] == a + b[..|b| - 1];
    }
  }

  /** An element finds in `db` what its operation expects: nothing for an insert, its key for a write. */
  predicate Expects(db: Db, el: WElem) {
    (el.op.Insert? ==> el.r !in db) && (el.op.Write? ==> el.r in db)
  }

  /** One transaction's records replay as its write set applies. */
  lemma {:induction false} RunOne(db: Db, ws: seq<WElem>, v: Ver)
    requires Distinct(ws) && forall m :: 0 <= m < |ws| ==> Expects(db, ws[m])
    ensures Run(Some(db), LogOf(ws, v)) == Some(ST.ApplyWrites(db, ws))
  {
    if ws != [] {
      var front, last := ws[..|ws| - 1], ws[|ws| - 1];
      RunOne(db, front, v);
      assert LogOf(ws, v)[..|ws| - 1] == LogOf(front, v);
      ST.ApplyWritesAt(db, front, last.r);
      assert !Writes(front, last.r);
      assert Expects(db, last);
      var m := ST.ApplyWrites(db, front);
      assert ST.Lookup(m, last.r) == ST.Lookup(db, last.r);
      assert last.r in m <==> last.r in db;
    }
  }

  /** A write of a key that is not there stops the replay. */
  lemma RunOneCrash(db: Db, ws: seq<WElem>, v: Ver, m: nat)
    requires Distinct(ws) && m < |ws| && ws[m].op.Write? && ws[m].r !in db
    ensures Run(Some(db), LogOf(ws, v)) == None
  {
    var log := LogOf(ws, v);
    var front := ws[..m];
    assert log[..m] == LogOf(front, v);
    if Run(Some(db), LogOf(front, v)).Some? {
      RunAt(db, LogOf(front, v), ws[m].r);
      LogOfKey(front, v, ws[m].r);
      assert !Writes(front, ws[m].r);
    }
    assert log[..m + 1][..m] == log[..m];
    assert Run(Some(db), log[..m + 1]) == None;
    RunConcat(Some(db), log[..m + 1], log[m + 1..]);
    assert log == log[..m + 1] + log[m + 1..];
    NoneStays(log[m + 1..]);
  }

  lemma {:induction false} NoneStays(log: seq<LogRec>)
    ensures Run(None, log) == None
  {
    if log != [] { NoneStays(log[..|log| - 1]); }
  }

  /** What the last writer of a key did to it. */
  lemma LastOp(s: Silo.State, n: nat, r: Rid) returns (op: Op)
    requires Inv(s) && n <= |s.order| && LastWriter(s.order, n, r) >= 0
    ensures HasOp(s.order[LastWriter(s.order, n, r)], r, op)
    ensures ValAt(s.init, s.order, n, r).Some? <==> op != Delete
  {
    var p := LastWriter(s.order, n, r);
    assert OInv(s, p);
    var m :| 0 <= m < |s.order[p].wset| && s.order[p].wset[m].r == r;
    EffectAt(s.order[p].wset, m);
    op := s.order[p].wset[m].op;
  }

  lemma OpIsUnique(e: Entry, r: Rid, a: Op, b: Op)
    requires Distinct(e.wset) && HasOp(e, r, a) && HasOp(e, r, b)
    ensures a == b
  {
  }

  /** With no write after a delete, every committed element finds what it expects. */
  lemma FindsExpected(s: Silo.State, n: nat, m: nat)
    requires Inv(s) && n < |s.order| && s.order[n].status.Committed? && m < |s.order[n].wset|
    requires NoWriteAfterDelete(s.order, n + 1)
    ensures Expects(ST.RunSerial(s.init, s.order, n), s.order[n].wset[m])
  {
    var el := s.order[n].wset[m];
    assert OInv(s, n);
    ST.RunSerialAt(s.init, s.order, n, el.r);
    if el.op.Write? && LastWriter(s.order, n, el.r) >= 0 {
      var op := LastOp(s, n, el.r);
      assert HasOp(s.order[n], el.r, Write);
    }
  }

  /** The log in serial order replays to the committed state when no write follows a delete of its key. */
  lemma {:induction false} SerialReplays(s: Silo.State, n: nat)
    requires Inv(s) && n <= |s.order| && NoWriteAfterDelete(s.order, n)
    ensures Run(Some(s.init), PrefixLog(s.order, n)) == Some(ST.RunSerial(s.init, s.order, n))
  {
    if n > 0 {
      SerialReplays(s, n - 1);
      var e := s.order[n - 1];
      if e.status.Committed? {
        assert OInv(s, n - 1);
        forall m | 0 <= m < |e.wset| ensures Expects(ST.RunSerial(s.init, s.order, n - 1), e.wset[m]) {
          FindsExpected(s, n - 1, m);
        }
        RunOne(ST.RunSerial(s.init, s.order, n - 1), e.wset, e.ver);
        RunConcat(Some(s.init), PrefixLog(s.order, n - 1), LogOf(e.wset, e.ver));
      } else {
        assert PrefixLog(s.order, n) == PrefixLog(s.order, n - 1);
      }
    }
  }

  /** After a first write that follows a delete of its key the key is missing, and the replay stops. */
  lemma FirstCrash(s: Silo.State, p: nat, q: nat, r: Rid)
    requires Inv(s) && p < q < |s.order| && HasOp(s.order[p], r, Delete) && HasOp(s.order[q], r, Write)
    requires NoWriteAfterDelete(s.order, q)
    ensures Run(Some(s.init), PrefixLog(s.order, q + 1)) == None
  {
    SerialReplays(s, q);
    var e := s.order[q];
    assert OInv(s, q);
    var m :| 0 <= m < |e.wset| && e.wset[m].r == r && e.wset[m].op == Write;
    DeletedStays(s, p, q, r);
    ST.RunSerialAt(s.init, s.order, q, r);
    RunOneCrash(ST.RunSerial(s.init, s.order, q), e.wset, e.ver, m);
    RunConcat(Some(s.init), PrefixLog(s.order, q), LogOf(e.wset, e.ver));
  }

  /** An insert is the first committed writer of its key. */
  lemma InsertIsFirst(s: Silo.State, l: nat, r: Rid)
    requires Inv(s) && l < |s.order| && HasOp(s.order[l], r, Insert)
    ensures LastWriter(s.order, l, r) < 0
  {
    assert OInv(s, l);
    var m :| 0 <= m < |s.order[l].wset| && s.order[l].wset[m].r == r && s.order[l].wset[m].op == Insert;
    assert !Known(s.init, s.order, l, s.order[l].wset[m].r);
  }

  lemma DeletedStays(s: Silo.State, p: nat, q: nat, r: Rid)
    requires Inv(s) && p < q <= |s.order| && HasOp(s.order[p], r, Delete) && NoWriteAfterDelete(s.order, q)
    ensures ValAt(s.init, s.order, q, r) == None
  {
    assert CommittedWriter(s.order[p], r);
    var l := LastWriter(s.order, q, r);
    assert p <= l < q;
    var op := LastOp(s, q, r);
    if p == l {
      assert OInv(s, p);
      OpIsUnique(s.order[p], r, Delete, op);
    } else if op.Insert? {
      InsertIsFirst(s, l, r);
    }
  }

  lemma {:induction false} LogPrefix(order: seq<Entry>, m: nat, n: nat) returns (more: seq<LogRec>)
    requires m <= n <= |order|
    ensures PrefixLog(order, n) == PrefixLog(order, m) + more
  {
    if m == n {
      more := [];
    } else {
      more := LogPrefix(order, m, n - 1);
      if order[n - 1].status.Committed? {
        more := more + LogOf(order[n - 1].wset, order[n - 1].ver);
      }
    }
  }

  lemma {:induction false} SerialCrashes(s: Silo.State, n: nat)
    requires Inv(s) && n <= |s.order| && !NoWriteAfterDelete(s.order, n)
    ensures Run(Some(s.init), PrefixLog(s.order, n)) == None
  {
    hide Inv, Run, PrefixLog;
    if !NoWriteAfterDelete(s.order, n - 1) {
      SerialCrashes(s, n - 1);
    } else {
      var p, q, r :| 0 <= p < q < n && HasOp(s.order[p], r, Delete) && HasOp(s.order[q], r, Write);
      assert q == n - 1;
      FirstCrash(s, p, q, r);
    }
    var more := LogPrefix(s.order, n - 1, n);
    RunConcat(Some(s.init), PrefixLog(s.order, n - 1), more);
    NoneStays(more);
  }

  /**
    Replay correctness.  For every reachable state and every prefix of its serial order, any
    arrangement of the prefix's log records sorted by TID, ties in any order, replays to the state that
    running the committed transactions one at a time leaves, exactly when no transaction writes a key
    that an earlier one deleted; otherwise the replay dereferences a null pointer.
   */
  lemma ReplayRebuilds(s: Silo.State, n: nat, log: seq<LogRec>)
    requires Inv(s) && n <= |s.order|
    requires multiset(log) == multiset(PrefixLog(s.order, n)) && ByTid(log)
    ensures Run(Some(s.init), log)
            == if NoWriteAfterDelete(s.order, n) then Some(ST.RunSerial(s.init, s.order, n)) else None
  {
    SortedIsSerial(s, n, log);
    if NoWriteAfterDelete(s.order, n) { SerialReplays(s, n); } else { SerialCrashes(s, n); }
  }
}
