/**
  What the commit protocol guarantees in every reachable state of every interleaving.
 */
module SiloTheorems {
  import opened Base
  import opened Tid
  import opened Silo
  import opened SiloInv
  import opened SiloLocal
  import opened SiloLock
  import opened SiloCommit
  import opened SiloOrder

  // ---------------------------------------------------------------- the invariant holds always

  lemma InitInv(s: State)
    requires Initial(s)
    ensures Inv(s)
  {
    forall w | 0 <= w < |s.workers| ensures WInv(s, w) {
      EmptyWorker(s, w);
    }
  }

  lemma InvKeeps(s: State, e: Event)
    requires Inv(s) && Enabled(s, e)
    ensures Inv(Step(s, e))
  {
    match e
    case EwBegin(_, _) => RestKeeps(s, e);
    case Lead(_) => RestKeeps(s, e);
    case EwLoad(_) => RestKeeps(s, e);
    case EwStore(_) => RestKeeps(s, e);
    case Begin(_) => RestKeeps(s, e);
    case ReadTid(w, r) => ReadTidKeeps(s, w, r);
    case ReadCheck(w) => ReadCheckKeeps(s, w);
    case ReadBody(w) => ReadBodyKeeps(s, w);
    case AddWrite(w, r, op, val) => AddWriteKeeps(s, w, r, op, val);
    case AddInsert(w, r, val) => AddInsertKeeps(s, w, r, val);
    case GiveUp(_) => GiveUpKeeps(s, e);
    case LockBegin(_) => GiveUpKeeps(s, e);
    case LockNext(w) => LockKeeps(s, w);
    case LoadEpoch(w) => LoadKeeps(s, w);
    case StoreEpoch(w) => StoreEpochKeeps(s, w);
    case ValidateNext(w) => if Passes(s, w) { PassKeeps(s, w); } else { FailKeeps(s, w); }
    case Commit(w) => CommitKeeps(s, w);
    case Logged(w) => LoggedKeeps(s, w);
    case InstallNext(w) => InstallKeeps(s, w);
    case UnlockNext(w) => UnlockKeeps(s, w);
    case DropNext(w) => DropKeeps(s, w);
  }

  lemma {:induction false} Always(s0: State, run: seq<Event>)
    requires Initial(s0) && After(s0, run).Some?
    ensures Inv(After(s0, run).value)
  {
    if run == [] {
      InitInv(s0);
    } else {
      Always(s0, run[..|run| - 1]);
      InvKeeps(After(s0, run[..|run| - 1]).value, run[|run| - 1]);
    }
  }

  // ---------------------------------------------------------------- one transaction at a time

  /** The reference: a write set applied to a plain map, element by element. */
  function ApplyWrites(db: map<Rid, Val>, ws: seq<WElem>): map<Rid, Val> {
    if ws == [] then db
    else
      var before := ApplyWrites(db, ws[..|ws| - 1]);
      var last := ws[|ws| - 1];
      if last.op.Delete? then before - {last.r} else before[last.r := last.val]
  }

  /** The reference: the committed ones among the first `n` transactions, run one at a time. */
  function RunSerial(init: map<Rid, Val>, order: seq<Entry>, n: nat): map<Rid, Val>
    requires n <= |order|
  {
    if n == 0 then init
    else
      var before := RunSerial(init, order, n - 1);
      if order[n - 1].status.Committed? then ApplyWrites(before, order[n - 1].wset) else before
  }

  function Lookup(db: map<Rid, Val>, r: Rid): Option<Val> { if r in db then Some(db[r]) else None }

  lemma {:induction false} ApplyWritesAt(db: map<Rid, Val>, ws: seq<WElem>, r: Rid)
    ensures Lookup(ApplyWrites(db, ws), r) == if Writes(ws, r) then Effect(ws, r) else Lookup(db, r)
  {
    if ws != [] {
      var rest, last := ws[..|ws| - 1], ws[|ws| - 1];
      ApplyWritesAt(db, rest, r);
      assert Writes(ws, r) <==> Writes(rest, r) || last.r == r by {
        if Writes(rest, r) {
          var k :| 0 <= k < |rest| && rest[k].r == r;
          assert ws[k].r == r;
        }
      }
    }
  }

  lemma {:induction false} RunSerialAt(init: map<Rid, Val>, order: seq<Entry>, n: nat, r: Rid)
    requires n <= |order|
    ensures Lookup(RunSerial(init, order, n), r) == ValAt(init, order, n, r)
  {
    if n > 0 {
      RunSerialAt(init, order, n - 1, r);
      ApplyWritesAt(RunSerial(init, order, n - 1), order[n - 1].wset, r);
    }
  }

  // ---------------------------------------------------------------- main theorems

  /**
    Serializability.  In every interleaving each committed transaction's reads return what the map
    holds after running, one at a time, the committed transactions that loaded their epoch earlier.
    An insert's reserved record (value `None`) is absent from that map.
   */
  lemma Serializable(s0: State, run: seq<Event>, p: nat, i: nat)
    requires Initial(s0) && After(s0, run).Some?
    requires var s := After(s0, run).value; p < |s.order| && s.order[p].status.Committed? && i < |s.order[p].rset|
    ensures var s := After(s0, run).value;
            s.order[p].rset[i].val == Lookup(RunSerial(s0.init, s.order, p), s.order[p].rset[i].r)
  {
    var s := After(s0, run).value;
    Always(s0, run);
    InitKept(s0, run);
    assert OInv(s, p);
    assert Fixed(s, p, s.order[p].rset[i]);
    RunSerialAt(s.init, s.order, p, s.order[p].rset[i].r);
  }

  lemma {:induction false} InitKept(s0: State, run: seq<Event>)
    requires After(s0, run).Some?
    ensures After(s0, run).value.init == s0.init
    ensures |After(s0, run).value.workers| == |s0.workers|
  {
    if run != [] {
      InitKept(s0, run[..|run| - 1]);
      StepFrame(After(s0, run[..|run| - 1]).value, run[|run| - 1]);
    }
  }

  lemma StepFrame(s: State, e: Event)
    requires Enabled(s, e)
    ensures Step(s, e).init == s.init && |Step(s, e).workers| == |s.workers|
  {
  }

  /** Unlocked records always show the outcome of all committed transactions, run one at a time. */
  lemma RecordsAreSerial(s0: State, run: seq<Event>, r: Rid)
    requires Initial(s0) && After(s0, run).Some?
    requires var s := After(s0, run).value; r in s.recs && !s.recs[r].lock
    ensures var s := After(s0, run).value;
            Present(s.recs[r]) == Lookup(RunSerial(s0.init, s.order, |s.order|), r)
  {
    var s := After(s0, run).value;
    Always(s0, run);
    InitKept(s0, run);
    assert RInv(s, r);
    RunSerialAt(s.init, s.order, |s.order|, r);
  }

  /** Epochs respect the serial order, also between a reader and a later overwriter. */
  lemma {:induction false} EpochsRespectOrder(s0: State, run: seq<Event>, p: nat, q: nat)
    requires Initial(s0) && After(s0, run).Some?
    requires p <= q < |After(s0, run).value.order|
    ensures var o := After(s0, run).value.order;
            && o[p].epoch <= o[q].epoch
            && (o[p].status.Committed? ==> o[p].ver.epoch == o[p].epoch)
            && (o[p].status.Committed? && o[q].status.Committed? ==> o[p].ver.epoch <= o[q].ver.epoch)
  {
    Always(s0, run);
    assert OInv(After(s0, run).value, p) && OInv(After(s0, run).value, q);
  }

  /**
    Commit TIDs: above every version the transaction read, above the worker's earlier ones, and above
    every earlier committed version of a record it writes.
   */
  lemma CommitTidsGrow(s0: State, run: seq<Event>, p: nat)
    requires Initial(s0) && After(s0, run).Some?
    requires var s := After(s0, run).value; p < |s.order| && s.order[p].status.Committed?
    ensures var o := After(s0, run).value.order;
            && (forall i :: 0 <= i < |o[p].rset| ==> Below(o[p].rset[i].ver, o[p].ver))
            && (forall q :: 0 <= q < p && o[q].status.Committed? && o[q].w == o[p].w ==> Below(o[q].ver, o[p].ver))
            && (forall q, r :: 0 <= q < p && CommittedWriter(o[q], r) && CommittedWriter(o[p], r) ==>
                Below(o[q].ver, o[p].ver))
  {
    Always(s0, run);
    assert OInv(After(s0, run).value, p);
  }

  /** Two committed transactions with the same TID write disjoint sets of records. */
  lemma EqualTidsAreDisjoint(s0: State, run: seq<Event>, p: nat, q: nat, r: Rid)
    requires Initial(s0) && After(s0, run).Some?
    requires var o := After(s0, run).value.order;
             p < |o| && q < |o| && p != q && CommittedWriter(o[p], r) && CommittedWriter(o[q], r)
    ensures After(s0, run).value.order[p].ver != After(s0, run).value.order[q].ver
  {
    CommitTidsGrow(s0, run, if p < q then q else p);
  }

  /** No step lowers a record's version, and a step that changes what a record shows raises it. */
  lemma VersionsOnlyRise(s: State, e: Event, r: Rid)
    requires Inv(s) && Enabled(s, e) && r in s.recs
    ensures r in Step(s, e).recs && AtMost(s.recs[r].ver, Step(s, e).recs[r].ver)
    ensures !Dirty(s, r) && !Dirty(Step(s, e), r) && Present(Step(s, e).recs[r]) != Present(s.recs[r])
            ==> Below(s.recs[r].ver, Step(s, e).recs[r].ver)
  {
    assert WInv(s, e.w) && RInv(s, r);
    var k := s.workers[e.w];
    if e.InstallNext? && k.phase.i < |k.wset| {
      assert Holds(k, k.phase.i);
      InstallRecord(s, e.w, k.wset[k.phase.i].r);
    } else {
      QuietRecords(s, e, r);
    }
  }

  lemma QuietRecords(s: State, e: Event, r: Rid)
    requires Enabled(s, e) && r in s.recs && (e.InstallNext? ==> s.workers[e.w].phase.i == |s.workers[e.w].wset|)
    ensures r in Step(s, e).recs
    ensures var a, b := s.recs[r], Step(s, e).recs[r]; b.ver == a.ver && b.absent == a.absent && b.body == a.body
  {
  }

  /**
    Late body read.  Although the body is loaded after the second TID check, a committed read returned
    the body of exactly the version it recorded: the one written by the last committed transaction
    before it, or the initial one.
   */
  lemma LateBodyReadIsSafe(s0: State, run: seq<Event>, p: nat, i: nat)
    requires Initial(s0) && After(s0, run).Some?
    requires var s := After(s0, run).value; p < |s.order| && s.order[p].status.Committed? && i < |s.order[p].rset|
    ensures var o := After(s0, run).value.order;
            var e := o[p].rset[i];
            var q := LastWriter(o, p, e.r);
            if q >= 0 then e.ver == o[q].ver && Writes(o[q].wset, e.r) && e.val == Effect(o[q].wset, e.r)
            else e.ver == ZERO && e.val == Lookup(s0.init, e.r)
  {
    Always(s0, run);
    InitKept(s0, run);
    assert OInv(After(s0, run).value, p);
    assert Fixed(After(s0, run).value, p, After(s0, run).value.order[p].rset[i]);
  }

  /**
    Lock discipline.  A lock bit is set exactly while one worker holds the record, or for ever on the
    record of an abandoned insert; two workers never hold the same record; a worker outside a
    transaction holds none, and on the way out of an abort it holds only its inserts.
   */
  lemma LockDiscipline(s0: State, run: seq<Event>, r: Rid)
    requires Initial(s0) && After(s0, run).Some? && r in After(s0, run).value.recs
    ensures var s := After(s0, run).value;
            && (s.recs[r].lock <==>
                s.recs[r].owner.Orphan? || exists w :: 0 <= w < |s.workers| && HoldsRid(s.workers[w], r))
            && forall w, u :: 0 <= w < u < |s.workers| ==> !(HoldsRid(s.workers[w], r) && HoldsRid(s.workers[u], r))
  {
    var s := After(s0, run).value;
    Always(s0, run);
    assert RInv(s, r);
    forall w | 0 <= w < |s.workers| && HoldsRid(s.workers[w], r) ensures s.recs[r].owner == Own(w) {
      assert WInv(s, w);
    }
  }

  /** What is held at the end: nothing after a commit or an abort, only inserts once the locks are released. */
  lemma LocksAreReturned(s0: State, run: seq<Event>, w: nat, r: Rid)
    requires Initial(s0) && After(s0, run).Some?
    requires w < |After(s0, run).value.workers| && r in After(s0, run).value.recs
    requires After(s0, run).value.recs[r].owner == Own(w)
    ensures var k := After(s0, run).value.workers[w];
            && !Resting(k.phase)
            && (k.phase.Dropping? ==> exists m :: 0 <= m < |k.wset| && k.wset[m].op.Insert? && k.wset[m].r == r)
            && (k.phase.Installing? ==> k.phase.i < |k.wset|)
  {
    var s := After(s0, run).value;
    Always(s0, run);
    assert RInv(s, r);
    var k := s.workers[w];
    var m :| 0 <= m < |k.wset| && Holds(k, m) && k.wset[m].r == r;
  }
}
